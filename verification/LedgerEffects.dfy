/** What txs and blocks leave at each address, in the terms of the txs: payments, fees, vetoes, deploys and
    destroys (ngstate/state_handle.go). */
module LedgerEffects {
  import opened Basics
  import opened Sums
  import opened VmJournal
  import opened VmFlows
  import opened DepLedger
  import opened Deposits
  import opened Generates
  import opened Ledger
  import Rewards

  /** No contract lives at the escrow, and under the fork the book is solvent. */
  ghost predicate Sane(b: Book, rent: bool) {
    Escrow() !in b.contracts && (rent ==> Solvent(b))
  }

  // ---- payments ----

  /** From b to d the sender paid value and fee, the recipient got the value, and nothing else changed. */
  ghost predicate Moves(b: Book, tx: Tx, d: Book)
    requires tx.Transact?
  {
    && d.contracts == b.contracts
    && forall x :: Get(d.balances, x) + (if x == tx.from then tx.value + tx.fee else 0)
                == Get(b.balances, x) + if x == tx.to then tx.value else 0
  }

  lemma PaidMoves(b: Book, tx: Tx)
    requires tx.Transact? && tx.value + tx.fee <= Get(b.balances, tx.from)
    ensures Moves(b, tx, Book(Paid(b.balances, tx.from, tx.to, tx.value, tx.fee), b.contracts))
  {}

  /** A payment between addresses without live contracts: accepted exactly when its own checks pass and the sender
      covers value and fee, and then exactly that is moved. */
  lemma PlainTransact(b: Book, tx: Tx, rent: bool)
    requires tx.Transact? && !Live(b.contracts, tx.from) && !Live(b.contracts, tx.to)
    ensures TxOn(b, tx, rent).Some? <==> tx.passes && tx.value + tx.fee <= Get(b.balances, tx.from)
    ensures TxOn(b, tx, rent).Some? ==> Moves(b, tx, TxOn(b, tx, rent).value)
  {
    if tx.value + tx.fee <= Get(b.balances, tx.from) {
      PaidMoves(b, tx);
    }
  }

  /** The contract at a ran these calls from b to d, to the end; or it is not live, or trapped, and nothing happened. */
  ghost predicate RanOn(b: Book, a: Digest, ops: seq<Op>, rent: bool, d: Book) {
    if Live(b.contracts, a) && Completes(b, b.contracts, [a], ops, rent) then
      forall x :: LeftAt(b, b.contracts, [a], ops, rent, d, x)
    else d == b
  }

  lemma HookRuns(b: Book, a: Digest, ops: seq<Op>, rent: bool)
    requires Sane(b, rent)
    ensures Hooked(b, a, ops, rent).Some? <==> Live(b.contracts, a) && Completes(b, b.contracts, [a], ops, rent)
    ensures RanOn(b, a, ops, rent, After(b, a, ops, rent)) && Sane(After(b, a, ops, rent), rent)
  {
    if Live(b.contracts, a) {
      CompletesIff(b, b, [a], ops, rent);
      var h := Hooked(b, a, ops, rent);
      if h.Some? {
        RunLeaves(b, b, [a], ops, rent, h.value);
        HookKeeps(b, a, ops, rent, h.value);
      }
    }
  }

  /** The sender's policy lets the tx through. */
  ghost predicate Agreed(b: Book, tx: Tx, rent: bool)
    requires !tx.Generate?
  {
    Live(b.contracts, tx.from) && tx.policy.Some? ==> Completes(b, b.contracts, [tx.from], tx.policy.value, rent)
  }

  lemma PolicyRuns(b: Book, tx: Tx, rent: bool)
    requires Sane(b, rent) && !tx.Generate?
    ensures Validated(b, tx.from, tx.policy, rent).Some? <==> Agreed(b, tx, rent)
    ensures Agreed(b, tx, rent) ==>
              var v := Validated(b, tx.from, tx.policy, rent).value;
              Sane(v, rent) && if tx.policy.Some? then RanOn(b, tx.from, tx.policy.value, rent, v) else v == b
  {
    if tx.policy.Some? {
      HookRuns(b, tx.from, tx.policy.value, rent);
    }
  }

  lemma MovesSane(b: Book, tx: Tx, p: Book, rent: bool)
    requires tx.Transact? && Moves(b, tx, p) && Sane(b, rent) && tx.from != Escrow()
    ensures Sane(p, rent)
  {
    assert Get(p.balances, Escrow()) >= Get(b.balances, Escrow());
  }

  /** Any payment, contracts included: the sender's policy runs as the sender, then value and fee move, then the
      recipient's contract runs as the recipient. It is accepted exactly when its checks pass, the policy goes
      through and the sender then covers value and fee; what the recipient's contract does cannot refuse it. */
  lemma TransactStages(b: Book, tx: Tx, rent: bool) returns (v: Book, p: Book)
    requires tx.Transact? && tx.from != Escrow() && Sane(b, rent)
    ensures Agreed(b, tx, rent) ==> if tx.policy.Some? then RanOn(b, tx.from, tx.policy.value, rent, v) else v == b
    ensures TxOn(b, tx, rent).Some?
       <==> tx.passes && Agreed(b, tx, rent) && tx.value + tx.fee <= Get(v.balances, tx.from)
    ensures TxOn(b, tx, rent).Some? ==>
              Moves(v, tx, p) && RanOn(p, tx.to, tx.run, rent, TxOn(b, tx, rent).value)
  {
    PolicyRuns(b, tx, rent);
    v, p := b, b;
    if Agreed(b, tx, rent) {
      v := Validated(b, tx.from, tx.policy, rent).value;
      if tx.value + tx.fee <= Get(v.balances, tx.from) {
        p := Book(Paid(v.balances, tx.from, tx.to, tx.value, tx.fee), v.contracts);
        PaidMoves(v, tx);
        MovesSane(v, tx, p, rent);
        HookRuns(p, tx.to, tx.run, rent);
      }
    }
  }

  // ---- what fails a block ----

  /** A tx that is refused in the book it finds fails the whole block. */
  lemma TxFailsBlock(b: Book, block: Block, rent: bool, i: nat, billed: Book, m: Book)
    requires i < |block.txs| && Billed(b.balances, block.commits) == Some(billed.balances)
    requires billed.contracts == b.contracts
    requires TxsOn(billed, block.txs[..i], rent) == Some(m) && TxOn(m, block.txs[i], rent).None?
    ensures BlockOn(b, block, rent).None?
  {
    var part := block.txs[..i + 1];
    assert part[..i] == block.txs[..i];
    assert TxsOn(billed, part, rent).None?;
    TxsFail(billed, block.txs, rent, i + 1);
  }

  /** A veto of the sender's own policy refuses the tx. */
  lemma Vetoed(b: Book, tx: Tx, rent: bool)
    requires Sane(b, rent) && !tx.Generate? && Live(b.contracts, tx.from) && tx.policy.Some?
    requires !Completes(b, b.contracts, [tx.from], tx.policy.value, rent)
    ensures TxOn(b, tx, rent).None?
  {
    PolicyRuns(b, tx, rent);
  }

  /** A deploy without a policy: accepted exactly when its checks pass, the fee is covered, and it either destroys a
      live contract nobody depends on or brings code that compiles and imports only other live contracts. */
  lemma DeployAccepted(b: Book, tx: Tx, rent: bool)
    requires tx.Deploy? && (tx.policy.None? || !Live(b.contracts, tx.from))
    ensures TxOn(b, tx, rent).Some?
       <==> && tx.passes && tx.fee <= Get(b.balances, tx.from)
            && if tx.source == [] then Live(b.contracts, tx.from) && b.contracts[tx.from].refs == 0
               else tx.imports.Some? && forall x :: x in tx.imports.value ==> x != tx.from && Live(b.contracts, x)
  {}

  // ---- deploys, upgrades and destroys ----

  /** Only the sender's balance changed: the fee is gone. */
  ghost predicate FeeTaken(b: Book, tx: Tx, c: Book)
    requires tx.Deploy?
  {
    && c.contracts == b.contracts
    && forall x :: Get(c.balances, x) + (if x == tx.from then tx.fee else 0) == Get(b.balances, x)
  }

  /** The count of references to x when a contract drops the dependencies olds and takes up deps. */
  function Recounted(refs: nat, x: Digest, olds: seq<Digest>, deps: seq<Digest>): (r: nat) {
    var left := if x in olds && refs > 0 then refs - 1 else refs;
    if x in deps then left + 1 else left
  }

  /** The new code is live in the slot of a, next to what the slot loaded before the hook held; the counts of old and
      new dependencies follow, and nothing else changed. */
  ghost predicate Stored(h: Book, loaded: Contract, a: Digest, source: Bytes, deps: seq<Digest>, s: Book) {
    && s.balances == h.balances
    && s.contracts.Keys == h.contracts.Keys + {a}
    && s.contracts[a] == Contract(true, source, deps, loaded.refs, loaded.rent, loaded.kv)
    && forall x :: x in h.contracts && x != a ==>
         s.contracts[x] == h.contracts[x].(refs := Recounted(h.contracts[x].refs, x, loaded.deps, deps))
  }

  /** The slot of a is gone and the counts of its dependencies follow. Under the fork its deposit, as far as the
      escrow covers it, went back to a. */
  ghost predicate Gone(h: Book, loaded: Contract, a: Digest, rent: bool, d: Book) {
    && d.contracts.Keys == h.contracts.Keys - {a}
    && (forall x :: x in d.contracts ==>
          d.contracts[x] == h.contracts[x].(refs := Recounted(h.contracts[x].refs, x, loaded.deps, [])))
    && var held := Get(h.balances, Escrow());
       var pay := if !rent then 0 else if held < loaded.rent then held else loaded.rent;
       forall x :: Get(d.balances, x) + (if x == Escrow() then pay else 0)
         == Get(h.balances, x) + if x == a then pay else 0
  }

  lemma SwapStores(h: Book, loaded: Contract, a: Digest, source: Bytes, deps: seq<Digest>, s: Book)
    requires s == Book(h.balances, Replaced(h.contracts, a, loaded.deps,
                                            loaded.(source := source, active := true, deps := deps)))
    ensures Stored(h, loaded, a, source, deps, s)
  {}

  lemma DestroyRemoves(h: Book, loaded: Contract, a: Digest, rent: bool, d: Book)
    requires a != Escrow()
    requires d == Book(if rent then PaidBack(h.balances, a, loaded.rent) else h.balances,
                       Released(h.contracts, loaded.deps) - {a})
    ensures Gone(h, loaded, a, rent, d)
  {}

  /** What is left of c after an accepted deploy whose fee is taken: on a live contract its own hook runs first, to
      h, and may refuse, which leaves it at that; then empty code removes the contract, and other code is stored, to
      s, and its init hook runs. */
  ghost predicate DeployLeft(c: Book, tx: Tx, rent: bool, h: Book, s: Book, d: Book)
    requires tx.Deploy?
  {
    var live := Live(c.contracts, tx.from);
    var loaded := if live then c.contracts[tx.from] else Contract(false, [], [], 0, 0, map[]);
    && (if live then RanOn(c, tx.from, tx.hook, rent, h) else h == c)
    && if live && !Completes(c, c.contracts, [tx.from], tx.hook, rent) then d == c
       else if tx.source == [] then Gone(h, loaded, tx.from, rent, d)
       else && tx.imports.Some?
            && Stored(h, loaded, tx.from, tx.source, Firsts(tx.imports.value), s)
            && (Sane(s, rent) ==> RanOn(s, tx.from, tx.init, rent, d))
  }

  lemma RemovalLeft(c: Book, tx: Tx, rent: bool, d: Book) returns (h: Book)
    requires tx.Deploy? && tx.from != Escrow() && Sane(c, rent) && tx.source == [] && Live(c.contracts, tx.from)
    requires d == Removed(c, tx, rent)
    ensures DeployLeft(c, tx, rent, h, c, d)
  {
    HookRuns(c, tx.from, tx.hook, rent);
    h := After(c, tx.from, tx.hook, rent);
    if Hooked(c, tx.from, tx.hook, rent).Some? {
      DestroyRemoves(h, Loaded(c, tx.from), tx.from, rent, d);
    }
  }

  lemma InitRuns(s: Book, tx: Tx, rent: bool)
    requires tx.Deploy?
    ensures Sane(s, rent) ==> RanOn(s, tx.from, tx.init, rent, After(s, tx.from, tx.init, rent))
  {
    if Sane(s, rent) {
      HookRuns(s, tx.from, tx.init, rent);
    }
  }

  lemma StoringLeft(c: Book, tx: Tx, rent: bool, deps: seq<Digest>, d: Book) returns (h: Book, s: Book)
    requires tx.Deploy? && Sane(c, rent) && tx.source != [] && tx.imports.Some? && deps == Firsts(tx.imports.value)
    requires d == Deployed(c, tx, deps, rent)
    ensures DeployLeft(c, tx, rent, h, s, d)
  {
    HookRuns(c, tx.from, tx.hook, rent);
    h := if Live(c.contracts, tx.from) then After(c, tx.from, tx.hook, rent) else c;
    var r := Swapped(c, tx.from, tx.hook, tx.source, deps, rent);
    if r.None? {
      s := c;
    } else {
      s := r.value;
      SwapStores(h, Loaded(c, tx.from), tx.from, tx.source, deps, s);
      InitRuns(s, tx, rent);
    }
  }

  lemma FeeSane(v: Book, tx: Tx, c: Book, rent: bool)
    requires tx.Deploy? && FeeTaken(v, tx, c) && Sane(v, rent) && tx.from != Escrow()
    ensures Sane(c, rent)
  {
    assert Get(c.balances, Escrow()) == Get(v.balances, Escrow());
  }

  /** An accepted deploy tx in stages: the sender's policy runs as the sender, the fee is taken, and then what
      DeployLeft says. */
  lemma DeployStages(b: Book, tx: Tx, rent: bool, d: Book) returns (v: Book, c: Book, h: Book, s: Book)
    requires tx.Deploy? && tx.from != Escrow() && Sane(b, rent) && TxOn(b, tx, rent) == Some(d)
    ensures Agreed(b, tx, rent) && if tx.policy.Some? then RanOn(b, tx.from, tx.policy.value, rent, v) else v == b
    ensures FeeTaken(v, tx, c) && DeployLeft(c, tx, rent, h, s, d)
  {
    PolicyRuns(b, tx, rent);
    v := Validated(b, tx.from, tx.policy, rent).value;
    c, h, s := FeeStages(v, tx, rent, d);
  }

  lemma FeeStages(v: Book, tx: Tx, rent: bool, d: Book) returns (c: Book, h: Book, s: Book)
    requires tx.Deploy? && tx.from != Escrow() && Sane(v, rent) && DeployedBy(v, tx, rent) == Some(d)
    ensures FeeTaken(v, tx, c) && DeployLeft(c, tx, rent, h, s, d)
  {
    c := Book(v.balances[tx.from := Get(v.balances, tx.from) - tx.fee], v.contracts);
    FeeSane(v, tx, c, rent);
    s := c;
    if tx.source == [] {
      h := RemovalLeft(c, tx, rent, d);
    } else {
      h, s := StoringLeft(c, tx, rent, Firsts(tx.imports.value), d);
    }
  }

  // ---- a whole block of payments ----

  /** The commitment fees an address owes. */
  function FeesOf(cs: seq<Commit>, a: Digest): (r: nat) {
    if cs == [] then 0
    else FeesOf(cs[..|cs| - 1], a) + if cs[|cs| - 1].from == a then cs[|cs| - 1].fee else 0
  }

  /** The commitments go through exactly when everybody affords their own fees in sum, and take exactly that. */
  lemma {:induction false} CommitsBilled(m: map<Digest, nat>, cs: seq<Commit>)
    ensures Billed(m, cs).Some? <==> forall a: Digest :: FeesOf(cs, a) <= Get(m, a)
    ensures Billed(m, cs).Some? ==> forall a: Digest :: Get(Billed(m, cs).value, a) + FeesOf(cs, a) == Get(m, a)
  {
    if cs != [] {
      var front, c := cs[..|cs| - 1], cs[|cs| - 1];
      CommitsBilled(m, front);
      var n := Billed(m, front);
      if n.None? {
        var a: Digest :| FeesOf(front, a) > Get(m, a);
        assert FeesOf(cs, a) >= FeesOf(front, a);
      } else {
        assert Get(n.value, c.from) + FeesOf(front, c.from) == Get(m, c.from);
        assert FeesOf(cs, c.from) == FeesOf(front, c.from) + c.fee;
        forall a: Digest ensures a != c.from ==> FeesOf(cs, a) <= Get(m, a) {
          assert Get(n.value, a) + FeesOf(front, a) == Get(m, a);
        }
      }
    }
  }

  /** What the txs bring an address: rewards and payments. */
  function Earned(txs: seq<Tx>, a: Digest): (r: nat) {
    if txs == [] then 0
    else
      var tx := txs[|txs| - 1];
      Earned(txs[..|txs| - 1], a) +
      match tx
      case Generate(mint) => if mint.to == a then mint.value else 0
      case Transact(_, to, value, _, _, _, _) => if to == a then value else 0
      case Deploy(_, _, _, _, _, _, _, _) => 0
  }

  /** And what they cost it: payments and fees. */
  function Owes(txs: seq<Tx>, a: Digest): (r: nat) {
    if txs == [] then 0
    else
      var tx := txs[|txs| - 1];
      Owes(txs[..|txs| - 1], a) + if tx.Transact? && tx.from == a then tx.value + tx.fee else 0
  }

  /** Only rewards, and payments between addresses without live contracts. */
  ghost predicate Plain(slots: map<Digest, Contract>, txs: seq<Tx>) {
    forall i :: 0 <= i < |txs| ==>
      !txs[i].Deploy? && (txs[i].Transact? ==> !Live(slots, txs[i].from) && !Live(slots, txs[i].to))
  }

  lemma {:induction false} PlainTxs(b: Book, txs: seq<Tx>, rent: bool, d: Book)
    requires Plain(b.contracts, txs) && TxsOn(b, txs, rent) == Some(d)
    ensures d.contracts == b.contracts
    ensures forall a: Digest :: Get(d.balances, a) + Owes(txs, a) == Get(b.balances, a) + Earned(txs, a)
  {
    if txs != [] {
      var front, tx := txs[..|txs| - 1], txs[|txs| - 1];
      var m := TxsOn(b, front, rent).value;
      PlainTxs(b, front, rent, m);
      if tx.Transact? {
        PlainTransact(m, tx, rent);
      }
      forall a: Digest ensures Get(d.balances, a) + Owes(txs, a) == Get(b.balances, a) + Earned(txs, a) {
        assert Get(m.balances, a) + Owes(front, a) == Get(b.balances, a) + Earned(front, a);
      }
    }
  }

  /** The payments to an address. */
  function PaymentsTo(txs: seq<Tx>, a: Digest): (r: nat) {
    if txs == [] then 0
    else
      var tx := txs[|txs| - 1];
      PaymentsTo(txs[..|txs| - 1], a) + if tx.Transact? && tx.to == a then tx.value else 0
  }

  lemma {:induction false} EarnedSplits(txs: seq<Tx>, a: Digest)
    ensures Earned(txs, a) == MintedTo(Mints(txs), a) + PaymentsTo(txs, a)
  {
    if txs != [] {
      var front, tx := txs[..|txs| - 1], txs[|txs| - 1];
      EarnedSplits(front, a);
      if tx.Generate? {
        MintedToAppend(Mints(front), tx.mint, Mints(txs), a);
      } else {
        assert Mints(txs) == Mints(front);
      }
    }
  }

  /** A block of rewards and plain payments: everybody ends with what they had and what they were paid, plus the block
      reward for the coinbase and the uncle rewards for the uncles' miners, minus payments, tx fees and commitment
      fees. */
  lemma PlainBlock(b: Book, block: Block, rent: bool, d: Book, a: Digest)
    requires Plain(b.contracts, block.txs) && BlockOn(b, block, rent) == Some(d)
    ensures d.contracts == b.contracts
    ensures Get(d.balances, a) + Owes(block.txs, a) + FeesOf(block.commits, a)
         == Get(b.balances, a) + PaymentsTo(block.txs, a)
            + (if a == block.coinbase then Rewards.BlockReward(block.height) else 0)
            + UncleEarned(block.uncles, block.height, a)
  {
    CommitsBilled(b.balances, block.commits);
    var m := Book(Billed(b.balances, block.commits).value, b.contracts);
    PlainTxs(m, block.txs, rent, d);
    EarnedSplits(block.txs, a);
    BalancedPays(Mints(block.txs), block.uncles, block.coinbase, block.height, a);
  }
}
