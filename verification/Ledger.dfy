/** Applying a block's commitments and txs to balances and contract slots (ngstate/state_handle.go, state.go). */
module Ledger {
  import opened Basics
  import opened Sums
  import opened VmJournal
  import opened DepLedger
  import opened Deposits
  import opened Generates
  import Rewards

  /** policy: what the sender's validate hook does, when its live contract exports one. passes: every check of
      the tx that touches neither balances nor slots (signature, reveal, content). */
  datatype Tx =
    | Generate(mint: Mint)
    | Transact(from: Digest, to: Digest, value: nat, fee: nat, passes: bool, policy: Option<seq<Op>>, run: seq<Op>)
    | Deploy(from: Digest, fee: nat, passes: bool, policy: Option<seq<Op>>, source: Bytes, imports: Option<seq<Digest>>,
             hook: seq<Op>, init: seq<Op>)

  datatype Commit = Commit(from: Digest, fee: nat, passes: bool)

  datatype Block = Block(height: nat, coinbase: Digest, uncles: seq<Uncle>, commits: seq<Commit>, txs: seq<Tx>)

  function Mints(txs: seq<Tx>): seq<Mint> {
    if txs == [] then [] else Mints(txs[..|txs| - 1]) + if txs[|txs| - 1].Generate? then [txs[|txs| - 1].mint] else []
  }

  function Fees(txs: seq<Tx>): nat {
    if txs == [] then 0 else Fees(txs[..|txs| - 1]) + if txs[|txs| - 1].Generate? then 0 else txs[|txs| - 1].fee
  }

  function CommitFees(cs: seq<Commit>): nat {
    if cs == [] then 0 else CommitFees(cs[..|cs| - 1]) + cs[|cs| - 1].fee
  }

  /** The balances after each committer paid its fee, if all can. */
  function Billed(m: map<Digest, nat>, cs: seq<Commit>): (r: Option<map<Digest, nat>>) {
    if cs == [] then Some(m)
    else
      var n, c := Billed(m, cs[..|cs| - 1]), cs[|cs| - 1];
      if n.None? || c.fee > Get(n.value, c.from) then None else Some(n.value[c.from := Get(n.value, c.from) - c.fee])
  }

  /** Who cannot pay stops the whole list. */
  lemma {:induction false} BilledPrefix(m: map<Digest, nat>, cs: seq<Commit>, i: nat)
    requires i <= |cs| && Billed(m, cs[..i]).None?
    ensures Billed(m, cs).None?
    decreases |cs|
  {
    if i < |cs| {
      var p := cs[..|cs| - 1];
      assert p[..i] == cs[..i];
      BilledPrefix(m, p, i);
    } else {
      assert cs[..i] == cs;
    }
  }

  /** No tx is sent from the escrow: no key hashes to it. */
  ghost predicate NotFromEscrow(tx: Tx) {
    tx.Generate? || tx.from != Escrow()
  }

  /** The addresses in order of their first occurrence. */
  function Firsts(s: seq<Digest>): (r: seq<Digest>)
    ensures Unique(r) && forall x :: x in r <==> x in s
  {
    if s == [] then []
    else
      var r, x := Firsts(s[..|s| - 1]), s[|s| - 1];
      if x in r then r else r + [x]
  }

  /** resolveDepAddrs: the imported addresses, each once. */
  method Resolve(imports: seq<Digest>) returns (deps: seq<Digest>)
    ensures deps == Firsts(imports)
  {
    deps := [];
    for i := 0 to |imports|
      invariant deps == Firsts(imports[..i])
    {
      assert imports[..i + 1][..i] == imports[..i];
      if imports[i] !in deps {
        deps := deps + [imports[i]];
      }
    }
    assert imports[..|imports|] == imports;
  }

  /** A payment with its fee burned, on plain balances. */
  function Paid(m: map<Digest, nat>, from: Digest, to: Digest, value: nat, fee: nat): map<Digest, nat>
    requires value + fee <= Get(m, from)
  {
    var taken := m[from := Get(m, from) - (value + fee)];
    taken[to := Get(taken, to) + value]
  }

  /** A deploy or upgrade with its init hook; a refused one changes nothing. */
  ghost function Deployed(b: Book, tx: Tx, deps: seq<Digest>, rent: bool): (r: Book)
    requires tx.Deploy?
  {
    var d := Swapped(b, tx.from, tx.hook, tx.source, deps, rent);
    if d.None? then b else After(d.value, tx.from, tx.init, rent)
  }

  ghost function Removed(b: Book, tx: Tx, rent: bool): (r: Book)
    requires tx.Deploy?
  {
    var d := Destroyed(b, tx.from, tx.hook, rent);
    if d.None? then b else d.value
  }

  /** A valid deploy: a destroy of a live contract nobody lists, or code that compiles and imports only live
      contracts other than the deployer. */
  ghost predicate Deployable(m: Slots, tx: Tx)
    requires tx.Deploy?
  {
    && tx.passes
    && (tx.source == [] ==> Live(m, tx.from) && m[tx.from].refs == 0)
    && (tx.source != [] ==> tx.imports.Some? && forall x :: x in tx.imports.value ==> x != tx.from && Live(m, x))
  }

  // ---- what a tx and a block make of a book ----

  /** runValidate: the book the sender's policy leaves; none when it vetoes. */
  ghost function Validated(b: Book, from: Digest, policy: Option<seq<Op>>, rent: bool): (r: Option<Book>) {
    if !Live(b.contracts, from) || policy.None? then Some(b) else Hooked(b, from, policy.value, rent)
  }

  /** handleTransaction */
  ghost function Transacted(b: Book, tx: Tx, rent: bool): (r: Option<Book>)
    requires tx.Transact?
  {
    if tx.value + tx.fee > Get(b.balances, tx.from) then None
    else Some(After(Book(Paid(b.balances, tx.from, tx.to, tx.value, tx.fee), b.contracts), tx.to, tx.run, rent))
  }

  /** handleDeploy */
  ghost function DeployedBy(b: Book, tx: Tx, rent: bool): (r: Option<Book>)
    requires tx.Deploy?
  {
    if tx.fee > Get(b.balances, tx.from) || !Deployable(b.contracts, tx) then None
    else
      var charged := Book(b.balances[tx.from := Get(b.balances, tx.from) - tx.fee], b.contracts);
      Some(if tx.source == [] then Removed(charged, tx, rent)
           else Deployed(charged, tx, Firsts(tx.imports.value), rent))
  }

  /** One tx; none fails the block. */
  ghost function TxOn(b: Book, tx: Tx, rent: bool): (r: Option<Book>) {
    if tx.Generate? then
      if tx.mint.signed && !tx.mint.verified then None
      else Some(Book(b.balances[tx.mint.to := Get(b.balances, tx.mint.to) + tx.mint.value], b.contracts))
    else if !tx.passes || Validated(b, tx.from, tx.policy, rent).None? then None
    else
      var v := Validated(b, tx.from, tx.policy, rent).value;
      if tx.Transact? then Transacted(v, tx, rent) else DeployedBy(v, tx, rent)
  }

  ghost function TxsOn(b: Book, txs: seq<Tx>, rent: bool): (r: Option<Book>) {
    if txs == [] then Some(b)
    else
      var m := TxsOn(b, txs[..|txs| - 1], rent);
      if m.None? then None else TxOn(m.value, txs[|txs| - 1], rent)
  }

  /** A failed tx fails the list. */
  lemma {:induction false} TxsFail(b: Book, txs: seq<Tx>, rent: bool, i: nat)
    requires i <= |txs| && TxsOn(b, txs[..i], rent).None?
    ensures TxsOn(b, txs, rent).None?
    decreases |txs|
  {
    if i < |txs| {
      assert txs[..|txs| - 1][..i] == txs[..i];
      TxsFail(b, txs[..|txs| - 1], rent, i);
    } else {
      assert txs[..i] == txs;
    }
  }

  /** The first i txs took b to d (sealed inside the loop). */
  ghost predicate Handled(b: Book, txs: seq<Tx>, rent: bool, i: nat, d: Book)
    requires i <= |txs|
  {
    forall seal {:trigger Opened(DID, seal)} :: Opened(DID, seal) ==> TxsOn(b, txs[..i], rent) == Some(d)
  }

  lemma HandledNone(b: Book, txs: seq<Tx>, rent: bool)
    ensures Handled(b, txs, rent, 0, b)
  {}

  lemma HandledNext(b: Book, txs: seq<Tx>, rent: bool, i: nat, j: nat, m: Book, ok: bool, d: Book)
    requires i < |txs| && j == i + 1 && Handled(b, txs, rent, i, m)
    requires ok <==> TxOn(m, txs[i], rent).Some?
    requires ok ==> TxOn(m, txs[i], rent) == Some(d)
    ensures ok ==> Handled(b, txs, rent, j, d)
    ensures !ok ==> TxsOn(b, txs, rent).None?
  {
    assert Opened(DID, true);
    assert txs[..j][..i] == txs[..i] && txs[..j][i] == txs[i];
    if !ok {
      TxsFail(b, txs, rent, j);
    }
  }

  lemma HandledAll(b: Book, txs: seq<Tx>, rent: bool, d: Book)
    requires Handled(b, txs, rent, |txs|, d)
    ensures TxsOn(b, txs, rent) == Some(d)
  {
    assert Opened(DID, true);
    assert txs[..|txs|] == txs;
  }

  predicate CommitsPass(cs: seq<Commit>) {
    forall i :: 0 <= i < |cs| ==> cs[i].passes
  }

  /** CheckBlockTxs' generate check and Upgrade. */
  ghost function BlockOn(b: Book, block: Block, rent: bool): (r: Option<Book>) {
    var billed := Billed(b.balances, block.commits);
    if !Balanced(Mints(block.txs), block.uncles, block.coinbase, block.height) || !CommitsPass(block.commits)
       || billed.None? then None
    else TxsOn(Book(billed.value, b.contracts), block.txs, rent)
  }

  class State {
    const rent: bool
    var balances: map<Digest, nat>
    var contracts: Slots

    ghost function Supply(): nat
      reads this
    {
      Sum(balances)
    }

    ghost function Books(): Book
      reads this
    {
      Book(balances, contracts)
    }

    ghost predicate Valid()
      reads this
    {
      InOrder(contracts) && Escrow() !in contracts
    }

    constructor (rent: bool)
      ensures Valid() && Supply() == 0 && this.rent == rent
    {
      this.rent := rent;
      balances, contracts := map[], map[];
      EmptyInOrder();
    }

    /** setBalance on top of getBalance */
    method Credit(a: Digest, n: nat)
      modifies `balances
      ensures balances == old(balances)[a := Get(old(balances), a) + n]
      ensures Supply() == old(Supply()) + n
    {
      SumSet(balances, a, Get(balances, a) + n);
      balances := balances[a := Get(balances, a) + n];
    }

    /** chargeFrom, and the fee of a commitment: what is taken is burned. */
    method Charge(a: Digest, n: nat) returns (ok: bool)
      modifies `balances
      ensures ok <==> n <= Get(old(balances), a)
      ensures ok ==> balances == old(balances)[a := Get(old(balances), a) - n]
      ensures !ok ==> balances == old(balances)
      ensures ok ==> Supply() + n == old(Supply())
    {
      if Get(balances, a) < n {
        return false;
      }
      SumSet(balances, a, Get(balances, a) - n);
      balances := balances[a := Get(balances, a) - n];
      ok := true;
    }

    /** runContract: its effect, or none. Supply and slots stay, the escrow's slack does not shrink, and under the
        fork a solvent book stays solvent. */
    method Run(a: Digest, ops: seq<Op>) returns (ok: bool)
      requires Valid()
      modifies this
      ensures Valid() && Keeps(old(Books()), Books())
      ensures ok <==> Hooked(old(Books()), a, ops, rent).Some?
      ensures Books() == After(old(Books()), a, ops, rent)
      ensures rent && Solvent(old(Books())) ==> Solvent(Books())
    {
      var b;
      ok, b := RunContract(Book(balances, contracts), a, ops, rent);
      RunInOrder(contracts, b.contracts);
      balances, contracts := b.balances, b.contracts;
    }

    /** runValidate: a veto fails the tx. */
    method RunValidate(from: Digest, policy: Option<seq<Op>>) returns (ok: bool)
      requires Valid()
      modifies this
      ensures Valid() && Keeps(old(Books()), Books())
      ensures ok <==>
                !Live(old(contracts), from) || policy.None? || Hooked(old(Books()), from, policy.value, rent).Some?
      ensures policy.None? ==> Books() == old(Books())
      ensures policy.Some? ==> Books() == After(old(Books()), from, policy.value, rent)
      ensures ok <==> Validated(old(Books()), from, policy, rent).Some?
      ensures ok ==> Validated(old(Books()), from, policy, rent) == Some(Books())
      ensures rent && Solvent(old(Books())) ==> Solvent(Books())
    {
      if !Live(contracts, from) || policy.None? {
        return true;
      }
      ok := Run(from, policy.value);
    }

    /** handleTransaction: value to the recipient, fee burned, then the recipient's contract runs. */
    method HandleTransaction(tx: Tx) returns (ok: bool)
      requires Valid() && tx.Transact?
      modifies this
      ensures ok <==> tx.value + tx.fee <= Get(old(balances), tx.from)
      ensures ok ==> Valid() && Supply() + tx.fee == old(Supply()) && SameSlots(old(contracts), contracts)
      ensures ok ==> Books() == After(Book(Paid(old(balances), tx.from, tx.to, tx.value, tx.fee), old(contracts)),
                                      tx.to, tx.run, rent)
      ensures ok && tx.from != Escrow() ==> Slack(Books()) >= Slack(old(Books()))
      ensures ok && tx.from != Escrow() && rent && Solvent(old(Books())) ==> Solvent(Books())
    {
      ok := Charge(tx.from, tx.value + tx.fee);
      if !ok {
        return;
      }
      Credit(tx.to, tx.value);
      assert balances == Paid(old(balances), tx.from, tx.to, tx.value, tx.fee);
      if tx.to in contracts {
        var _ := Run(tx.to, tx.run);
      }
    }

    /** validateDeps: each dependency is live and not the deployer. */
    method ValidateDeps(from: Digest, deps: seq<Digest>) returns (ok: bool)
      ensures ok <==> forall x :: x in deps ==> x != from && Live(contracts, x)
    {
      for i := 0 to |deps|
        invariant forall j :: 0 <= j < i ==> deps[j] != from && Live(contracts, deps[j])
      {
        if deps[i] == from || !Live(contracts, deps[i]) {
          assert deps[i] in deps;
          return false;
        }
      }
      ok := true;
    }

    /** pinDeps */
    method PinDeps(deps: seq<Digest>)
      requires Unique(deps) && forall x :: x in deps ==> x in contracts
      modifies `contracts
      ensures contracts == Pinned(old(contracts), deps)
    {
      assert Pinned(contracts, deps[..0]) == contracts;
      for i := 0 to |deps|
        invariant contracts == Pinned(old(contracts), deps[..i])
      {
        PinnedStep(old(contracts), deps, i);
        var c := contracts[deps[i]];
        contracts := contracts[deps[i] := c.(refs := c.refs + 1)];
      }
      assert deps[..|deps|] == deps;
    }

    /** releaseContractDeps */
    method ReleaseDeps(deps: seq<Digest>)
      requires Unique(deps) && forall x :: x in deps ==> x in contracts && contracts[x].refs > 0
      modifies `contracts
      ensures contracts == Released(old(contracts), deps)
    {
      assert Released(contracts, deps[..0]) == contracts;
      for i := 0 to |deps|
        invariant contracts == Released(old(contracts), deps[..i])
      {
        ReleasedStep(old(contracts), deps, i);
        var c := contracts[deps[i]];
        if c.refs > 0 {
          contracts := contracts[deps[i] := c.(refs := c.refs - 1)];
        }
      }
      assert deps[..|deps|] == deps;
    }

    /** refundContractDeposit: the whole locked total, capped at what the escrow holds. */
    method RefundAll(a: Digest, owed: nat)
      modifies `balances
      ensures Supply() == old(Supply()) && balances == PaidBack(old(balances), a, owed)
    {
      var held := Get(balances, Escrow());
      var pay := if held < owed then held else owed;
      if pay == 0 {
        return;
      }
      MovedKeepsTotal(balances, Escrow(), a, pay);
      balances := balances[Escrow() := held - pay];
      balances := balances[a := Get(balances, a) + pay];
    }

    /** Dropping the references of a slot that was loaded before a run. */
    method Release(a: Digest, slot: Contract)
      requires Valid() && a in contracts && SameSlot(slot, contracts[a])
      modifies `contracts
      ensures contracts == Released(old(contracts), slot.deps)
    {
      DepsCounted(contracts, a);
      ReleaseDeps(slot.deps);
    }

    /** Empty code on a live slot: the contract's own upgrade hook must agree, and nobody may depend on it. */
    method Destroy(tx: Tx) returns (ok: bool, done: bool)
      requires Valid() && tx.Deploy?
      modifies this
      ensures ok <==> Live(old(contracts), tx.from) && old(contracts)[tx.from].refs == 0
      ensures ok ==> Valid() && Supply() == old(Supply()) && Listers(old(contracts), tx.from) == {}
      ensures done <==> ok && Destroyed(old(Books()), tx.from, tx.hook, rent).Some?
      ensures done ==> Destroyed(old(Books()), tx.from, tx.hook, rent) == Some(Books())
      ensures !done ==> Books() == old(Books())
    {
      if !Live(contracts, tx.from) {
        return false, false;
      }
      var slot := contracts[tx.from];
      if slot.refs > 0 {
        return false, false;
      }
      NobodyLists(contracts, tx.from);
      done := Run(tx.from, tx.hook);
      ok := true;
      if !done {
        return;
      }
      assert SameSlot(slot, contracts[tx.from]);
      ghost var m := contracts;
      Release(tx.from, slot);
      RemoveInOrder(m, tx.from);
      if rent {
        RefundAll(tx.from, slot.rent);
      }
      contracts := contracts - {tx.from};
    }

    /** Pins the new references and puts the slot. */
    method Install(a: Digest, c: Contract, ghost m: Slots, ghost olds: seq<Digest>)
      requires contracts == Released(m, olds) && InOrder(m) && Escrow() !in m && a != Escrow()
      requires olds == if a in m then m[a].deps else []
      requires c.active && c.source != [] && Unique(c.deps) && forall x :: x in c.deps ==> x != a && Live(m, x)
      requires c.refs == if a in m then m[a].refs else 0
      modifies `contracts
      ensures Valid() && contracts == Replaced(m, a, olds, c)
    {
      PinDeps(c.deps);
      ReplaceInOrder(m, a, c, olds);
      contracts := contracts[a := c];
    }

    /** Deploy on an empty slot, upgrade on a live one, up to the slot being stored; the upgrade hook may refuse,
        which keeps everything. */
    method Swap(tx: Tx, deps: seq<Digest>) returns (done: bool)
      requires Valid() && tx.Deploy? && tx.from != Escrow() && tx.source != []
      requires Unique(deps) && forall x :: x in deps ==> x != tx.from && Live(contracts, x)
      modifies this
      ensures Valid() && Supply() == old(Supply())
      ensures done <==> Swapped(old(Books()), tx.from, tx.hook, tx.source, deps, rent).Some?
      ensures done ==> Swapped(old(Books()), tx.from, tx.hook, tx.source, deps, rent) == Some(Books())
      ensures !done ==> Books() == old(Books())
    {
      var slot := Contract(false, [], [], 0, 0, map[]);
      ghost var m := contracts;
      if Live(contracts, tx.from) {
        slot := contracts[tx.from];
        var agreed := Run(tx.from, tx.hook);
        if !agreed {
          return false;
        }
        StillLive(m, contracts, deps);
        m := contracts;
        assert SameSlot(slot, contracts[tx.from]);
        Release(tx.from, slot);
      } else {
        NotLiveIsAbsent(contracts, tx.from);
        assert Released(m, []) == m;
      }
      var c := slot.(source := tx.source, active := true, deps := deps);
      Install(tx.from, c, m, slot.deps);
      done := true;
    }

    /** Then the init hook runs, once on a deploy and again after an upgrade. */
    method Replace(tx: Tx, deps: seq<Digest>) returns (done: bool)
      requires Valid() && tx.Deploy? && tx.from != Escrow() && tx.source != []
      requires Unique(deps) && forall x :: x in deps ==> x != tx.from && Live(contracts, x)
      modifies this
      ensures Valid() && Supply() == old(Supply())
      ensures done <==> Swapped(old(Books()), tx.from, tx.hook, tx.source, deps, rent).Some?
      ensures Books() == Deployed(old(Books()), tx, deps, rent)
      ensures done ==> var d := Swapped(old(Books()), tx.from, tx.hook, tx.source, deps, rent).value;
                       Slack(Books()) >= Slack(d) && (rent && Solvent(d) ==> Solvent(Books()))
    {
      done := Swap(tx, deps);
      if done {
        var _ := Run(tx.from, tx.init);
      }
    }

    /** handleDeploy: what it takes for the tx to be valid, and exactly what it does then. */
    method HandleDeploy(tx: Tx) returns (ok: bool)
      requires Valid() && tx.Deploy? && tx.from != Escrow()
      modifies this
      ensures ok <==> tx.fee <= Get(old(balances), tx.from) && Deployable(old(contracts), tx)
      ensures ok ==> Valid() && Supply() + tx.fee == old(Supply())
      ensures ok ==> var b := Book(old(balances)[tx.from := Get(old(balances), tx.from) - tx.fee], old(contracts));
                     Books() == if tx.source == [] then Removed(b, tx, rent)
                                else Deployed(b, tx, Firsts(tx.imports.value), rent)
    {
      if !tx.passes {
        return false;
      }
      ok := Charge(tx.from, tx.fee);
      if !ok {
        return;
      }
      if tx.source == [] {
        var done;
        ok, done := Destroy(tx);
        return;
      }
      if tx.imports.None? {
        return false;
      }
      var deps := Resolve(tx.imports.value);
      ok := ValidateDeps(tx.from, deps);
      if !ok {
        return;
      }
      var _ := Replace(tx, deps);
    }

    /** handleCommits: each committer pays its own fee. */
    method HandleCommits(commits: seq<Commit>) returns (ok: bool)
      modifies `balances
      ensures ok ==> Billed(old(balances), commits) == Some(balances)
      ensures ok <==> Billed(old(balances), commits).Some? && forall i :: 0 <= i < |commits| ==> commits[i].passes
      ensures ok ==> Supply() + CommitFees(commits) == old(Supply())
    {
      for i := 0 to |commits|
        invariant Billed(old(balances), commits[..i]) == Some(balances)
        invariant forall j :: 0 <= j < i ==> commits[j].passes
        invariant Supply() + CommitFees(commits[..i]) == old(Supply())
      {
        assert commits[..i + 1][..i] == commits[..i];
        if !commits[i].passes {
          return false;
        }
        ok := Charge(commits[i].from, commits[i].fee);
        if !ok {
          BilledPrefix(old(balances), commits, i + 1);
          return;
        }
      }
      assert commits[..|commits|] == commits;
      ok := true;
    }

    /** handleGenerate: a signed one must verify, then the reward is minted. */
    method HandleGenerate(mint: Mint) returns (ok: bool)
      requires Valid()
      modifies this
      ensures ok <==> mint.signed ==> mint.verified
      ensures ok ==> Valid() && contracts == old(contracts) && Supply() == old(Supply()) + mint.value
      ensures ok ==> balances == old(balances)[mint.to := Get(old(balances), mint.to) + mint.value]
      ensures ok ==> Slack(Books()) >= Slack(old(Books())) && (Bonded(old(Books())) ==> Bonded(Books()))
    {
      if mint.signed && !mint.verified {
        return false;
      }
      Credit(mint.to, mint.value);
      ok := true;
    }

    method Transact(tx: Tx) returns (ok: bool)
      requires Valid() && tx.Transact? && tx.from != Escrow()
      modifies this
      ensures ok ==> Valid() && Supply() + tx.fee == old(Supply()) && Kept(old(Books()), Books(), rent)
      ensures ok <==> Transacted(old(Books()), tx, rent).Some?
      ensures ok ==> Transacted(old(Books()), tx, rent) == Some(Books())
    {
      ok := HandleTransaction(tx);
    }

    method DeployOn(tx: Tx) returns (ok: bool)
      requires Valid() && tx.Deploy? && tx.from != Escrow()
      modifies this
      ensures ok ==> Valid() && Supply() + tx.fee == old(Supply())
      ensures ok <==> DeployedBy(old(Books()), tx, rent).Some?
      ensures ok ==> DeployedBy(old(Books()), tx, rent) == Some(Books())
    {
      ok := HandleDeploy(tx);
    }

    method Mint(tx: Tx) returns (ok: bool)
      requires Valid() && tx.Generate?
      modifies this
      ensures ok ==> Valid() && Supply() == old(Supply()) + tx.mint.value && Kept(old(Books()), Books(), rent)
      ensures ok <==> TxOn(old(Books()), tx, rent).Some?
      ensures ok ==> TxOn(old(Books()), tx, rent) == Some(Books())
    {
      ok := HandleGenerate(tx.mint);
    }

    /** An effect tx: its policy, then what it does. */
    method Effect(tx: Tx) returns (ok: bool)
      requires Valid() && !tx.Generate? && tx.from != Escrow()
      modifies this
      ensures ok ==> Valid() && Supply() + tx.fee == old(Supply())
      ensures ok <==> TxOn(old(Books()), tx, rent).Some?
      ensures ok ==> TxOn(old(Books()), tx, rent) == Some(Books())
      ensures ok && !tx.Deploy? ==> Kept(old(Books()), Books(), rent)
    {
      if !tx.passes {
        return false;
      }
      ok := RunValidate(tx.from, tx.policy);
      if !ok {
        return;
      }
      if tx.Transact? {
        ok := Transact(tx);
      } else {
        ok := DeployOn(tx);
      }
    }

    /** One tx of HandleTxs: accepted exactly when TxOn is defined, and then its book. Anything but a deploy keeps
        the escrow's slack and, under the fork, its solvency. */
    method HandleTx(tx: Tx) returns (ok: bool)
      requires Valid() && NotFromEscrow(tx)
      modifies this
      ensures ok ==> Valid()
      ensures ok <==> TxOn(old(Books()), tx, rent).Some?
      ensures ok ==> TxOn(old(Books()), tx, rent) == Some(Books())
      ensures ok ==> Supply() + (if tx.Generate? then 0 else tx.fee)
                     == old(Supply()) + if tx.Generate? then tx.mint.value else 0
      ensures ok && !tx.Deploy? ==> Kept(old(Books()), Books(), rent)
    {
      if tx.Generate? {
        ok := Mint(tx);
      } else {
        ok := Effect(tx);
      }
    }

    /** HandleTxs: fees leave the supply, generates enter it, contract runs change nothing. Without deploys the
        escrow stays as solvent as it was. */
    method HandleTxs(txs: seq<Tx>) returns (ok: bool)
      requires Valid() && forall i :: 0 <= i < |txs| ==> NotFromEscrow(txs[i])
      modifies this
      ensures ok <==> TxsOn(old(Books()), txs, rent).Some?
      ensures ok ==> TxsOn(old(Books()), txs, rent) == Some(Books())
      ensures ok ==> Valid() && Supply() + Fees(txs) == old(Supply()) + Minted(Mints(txs))
      ensures ok && NoDeploys(txs) ==> Kept(old(Books()), Books(), rent)
    {
      ghost var b := Books();
      HandledNone(b, txs, rent);
      for i := 0 to |txs|
        invariant Valid() && Supply() + Fees(txs[..i]) == old(Supply()) + Minted(Mints(txs[..i]))
        invariant Handled(b, txs, rent, i, Books())
        invariant NoDeploys(txs) ==> Kept(old(Books()), Books(), rent)
      {
        ghost var m := Books();
        ok := HandleTx(txs[i]);
        HandledNext(b, txs, rent, i, i + 1, m, ok, Books());
        if !ok {
          return;
        }
        MintedStep(txs, i);
      }
      HandledAll(b, txs, rent, Books());
      assert txs[..|txs|] == txs;
      ok := true;
    }

    /** CheckBlockTxs' generate check, then Upgrade: accepted exactly when BlockOn is defined, and then its book. The
        supply grows by exactly the block reward and the uncle rewards, and shrinks by the fees of all txs and
        commitments. A block without deploys keeps the escrow's slack and, under the fork, its solvency. */
    method ApplyBlock(b: Block) returns (ok: bool)
      requires Valid() && forall i :: 0 <= i < |b.txs| ==> NotFromEscrow(b.txs[i])
      modifies this
      ensures ok ==> Valid()
      ensures ok <==> BlockOn(old(Books()), b, rent).Some?
      ensures ok ==> BlockOn(old(Books()), b, rent) == Some(Books())
      ensures ok ==> Supply() + Fees(b.txs) + CommitFees(b.commits)
                     == old(Supply()) + Rewards.BlockReward(b.height) + UncleRewards(b.uncles, b.height)
      ensures ok && NoDeploys(b.txs) && NoneFromEscrow(b.commits) ==> Kept(old(Books()), Books(), rent)
    {
      ok := CheckBlockGenerates(Mints(b.txs), b.uncles, b.coinbase, b.height);
      if !ok {
        return;
      }
      BalancedMints(Mints(b.txs), b.uncles, b.coinbase, b.height);
      ok := HandleCommits(b.commits);
      if !ok {
        return;
      }
      if NoneFromEscrow(b.commits) {
        BilledKeeps(old(balances), b.commits);
      }
      ok := HandleTxs(b.txs);
    }
  }

  /** The escrow has no less slack, and under the fork a solvent book is solvent still. */
  ghost predicate Kept(b: Book, d: Book, rent: bool) {
    Slack(d) >= Slack(b) && (rent && Solvent(b) ==> Solvent(d))
  }

  predicate NoDeploys(txs: seq<Tx>) {
    forall i :: 0 <= i < |txs| ==> !txs[i].Deploy?
  }

  ghost predicate NoneFromEscrow(cs: seq<Commit>) {
    forall i :: 0 <= i < |cs| ==> cs[i].from != Escrow()
  }

  lemma {:induction false} BilledKeeps(m: map<Digest, nat>, cs: seq<Commit>)
    requires Billed(m, cs).Some? && NoneFromEscrow(cs)
    ensures Get(Billed(m, cs).value, Escrow()) == Get(m, Escrow())
  {
    if cs != [] {
      BilledKeeps(m, cs[..|cs| - 1]);
    }
  }

  lemma StillLive(m: Slots, n: Slots, deps: seq<Digest>)
    requires SameSlots(m, n) && forall x :: x in deps ==> Live(m, x)
    ensures forall x :: x in deps ==> Live(n, x)
  {
    forall x | x in deps ensures Live(n, x) {
      assert SameSlot(m[x], n[x]);
    }
  }

  lemma MintedStep(txs: seq<Tx>, i: nat)
    requires i < |txs|
    ensures Minted(Mints(txs[..i + 1])) == Minted(Mints(txs[..i])) + if txs[i].Generate? then txs[i].mint.value else 0
    ensures Fees(txs[..i + 1]) == Fees(txs[..i]) + if txs[i].Generate? then 0 else txs[i].fee
  {
    assert txs[..i + 1][..i] == txs[..i];
    var m := Mints(txs[..i + 1]);
    if txs[i].Generate? {
      assert m[..|m| - 1] == Mints(txs[..i]);
    } else {
      assert m == Mints(txs[..i]);
    }
  }
}
