/** Storage deposits across whole txs (ngstate/state_handle.go, rent.go): a deploy, upgrade or destroy as a function
    of the book, and what it does to the escrow. */
module Deposits {
  import opened Basics
  import opened Sums
  import opened VmJournal
  import opened DepLedger

  /** Every contract bonded exactly, and the escrow covers all of it. */
  ghost predicate Solvent(b: Book) {
    Bonded(b) && Slack(b) >= 0
  }

  /** runContract's effect when it completes; none when there is no live contract or it traps. */
  ghost function Hooked(b: Book, a: Digest, ops: seq<Op>, rent: bool): (r: Option<Book>) {
    if Live(b.contracts, a) then RunOn(b, b, [a], ops, rent) else None
  }

  ghost function After(b: Book, a: Digest, ops: seq<Op>, rent: bool): (r: Book) {
    var h := Hooked(b, a, ops, rent);
    if h.Some? then h.value else b
  }

  /** The slot handleDeploy loads before anything runs; an empty one when there is no live contract. */
  function Loaded(b: Book, a: Digest): (r: Contract) {
    if Live(b.contracts, a) then b.contracts[a] else Contract(false, [], [], 0, 0, map[])
  }

  /** A deploy or upgrade up to the slot being stored: the hook runs first, but what is stored is the slot loaded
      before it, with the new code and dependencies. None when the hook refuses. */
  ghost function Swapped(b: Book, a: Digest, hook: seq<Op>, source: Bytes, deps: seq<Digest>, rent: bool)
    : (r: Option<Book>)
  {
    var slot := Loaded(b, a);
    var h := if Live(b.contracts, a) then Hooked(b, a, hook, rent) else Some(b);
    if h.None? then None
    else
      var c := slot.(source := source, active := true, deps := deps);
      Some(Book(h.value.balances, Replaced(h.value.contracts, a, slot.deps, c)))
  }

  /** refundContractDeposit pays no more than the escrow holds. */
  function Owed(m: map<Digest, nat>, owed: nat): (pay: nat)
    ensures pay <= owed && pay <= Get(m, Escrow())
  {
    if Get(m, Escrow()) < owed then Get(m, Escrow()) else owed
  }

  function PaidBack(m: map<Digest, nat>, a: Digest, owed: nat): (r: map<Digest, nat>) {
    if Owed(m, owed) == 0 then m else Moved(m, Escrow(), a, Owed(m, owed))
  }

  /** A destroy: the hook runs, then the deposit recorded in the slot loaded before it is paid out. */
  ghost function Destroyed(b: Book, a: Digest, hook: seq<Op>, rent: bool): (r: Option<Book>) {
    var h := Hooked(b, a, hook, rent);
    if h.None? then None
    else
      var slot := Loaded(b, a);
      Some(Book(if rent then PaidBack(h.value.balances, a, slot.rent) else h.value.balances,
                Released(h.value.contracts, slot.deps) - {a}))
  }

  // ---- the escrow ----

  lemma HookKeeps(b: Book, a: Digest, ops: seq<Op>, rent: bool, h: Book)
    requires Escrow() !in b.contracts && Hooked(b, a, ops, rent) == Some(h)
    ensures Keeps(b, h) && (rent && Solvent(b) ==> Solvent(h))
  {
    RunKeeps(b, b, [a], ops, rent, h);
  }

  lemma ReplacedRents(m: Slots, a: Digest, olds: seq<Digest>, c: Contract)
    ensures Sum(Rents(Replaced(m, a, olds, c))) + (if a in m then m[a].rent else 0) == Sum(Rents(m)) + c.rent
  {
    var p := Pinned(Released(m, olds), c.deps);
    assert Rents(p) == Rents(m);
    assert Rents(p[a := c]) == Rents(p)[a := c.rent];
    SumSet(Rents(m), a, c.rent);
  }

  /** Slots other than a keep what they store and what they locked. */
  lemma ReplacedBonds(m: Slots, a: Digest, olds: seq<Digest>, c: Contract, x: Digest)
    requires x in Replaced(m, a, olds, c)
    requires if x == a then BondExact(c) else BondExact(m[x])
    ensures BondExact(Replaced(m, a, olds, c)[x])
  {}

  lemma RemovedRents(m: Slots, a: Digest, olds: seq<Digest>)
    requires a in m
    ensures Sum(Rents(Released(m, olds) - {a})) + m[a].rent == Sum(Rents(m))
  {
    assert Rents(Released(m, olds) - {a}) == Rents(m) - {a};
    SumDel(Rents(m), a);
  }

  /** The stored slot brings back the locked total of before the hook: whatever the hook was refunded is
      missing from the slack afterwards. */
  lemma UpgradeSlack(b: Book, a: Digest, hook: seq<Op>, source: Bytes, deps: seq<Digest>, rent: bool, h: Book, d: Book)
    requires Escrow() !in b.contracts && Hooked(b, a, hook, rent) == Some(h)
    requires Swapped(b, a, hook, source, deps, rent) == Some(d)
    ensures a in h.contracts && Slack(d) == Slack(h) + h.contracts[a].rent - b.contracts[a].rent
  {
    HookKeeps(b, a, hook, rent, h);
    var slot := Loaded(b, a);
    ReplacedRents(h.contracts, a, slot.deps, slot.(source := source, active := true, deps := deps));
  }

  /** The stored bytes the hook took off the contract. */
  ghost function Shrunk(b: Book, h: Book, a: Digest): int
    requires a in b.contracts && a in h.contracts
  {
    StoredBytes(b.contracts[a].kv) - StoredBytes(h.contracts[a].kv)
  }

  /** In bonded books the deposit follows the stored bytes. */
  lemma ShrunkDeposit(b: Book, h: Book, a: Digest)
    requires a in b.contracts && a in h.contracts && Bonded(b) && Bonded(h)
    ensures b.contracts[a].rent - h.contracts[a].rent == DEPOSIT_PER_BYTE * Shrunk(b, h, a)
  {
    assert BondExact(b.contracts[a]) && BondExact(h.contracts[a]);
  }

  /** An upgrade keeps every bond exact. It keeps the escrow solvent if and only if the slack covers the deposit of
      the bytes by which the hook shrinks the contract's own storage. */
  lemma UpgradeSolventIff(b: Book, a: Digest, hook: seq<Op>, source: Bytes, deps: seq<Digest>, h: Book, d: Book)
    requires Escrow() !in b.contracts && Solvent(b) && Hooked(b, a, hook, true) == Some(h)
    requires Swapped(b, a, hook, source, deps, true) == Some(d)
    ensures Bonded(d) && a in h.contracts
    ensures Solvent(d) <==> DEPOSIT_PER_BYTE * Shrunk(b, h, a) <= Slack(h)
  {
    UpgradeSlack(b, a, hook, source, deps, true, h, d);
    HookKeeps(b, a, hook, true, h);
    UpgradeBonded(b, h, a, source, deps, d);
    ShrunkDeposit(b, h, a);
  }

  lemma UpgradeBonded(b: Book, h: Book, a: Digest, source: Bytes, deps: seq<Digest>, d: Book)
    requires a in b.contracts && Bonded(b) && Bonded(h)
    requires var slot := b.contracts[a];
             d.contracts == Replaced(h.contracts, a, slot.deps, slot.(source := source, active := true, deps := deps))
    ensures Bonded(d)
  {
    var slot := b.contracts[a];
    assert BondExact(slot);
    forall x | x in d.contracts ensures BondExact(d.contracts[x]) {
      ReplacedBonds(h.contracts, a, slot.deps, slot.(source := source, active := true, deps := deps), x);
    }
  }

  /** A deploy onto an empty slot locks nothing. */
  lemma DeploySolvent(b: Book, a: Digest, hook: seq<Op>, source: Bytes, deps: seq<Digest>, rent: bool, d: Book)
    requires a !in b.contracts && Swapped(b, a, hook, source, deps, rent) == Some(d)
    ensures Slack(d) == Slack(b) && (Solvent(b) ==> Solvent(d))
  {
    var c := Loaded(b, a).(source := source, active := true, deps := deps);
    ReplacedRents(b.contracts, a, [], c);
    NothingStored();
    if Bonded(b) {
      forall x | x in d.contracts ensures BondExact(d.contracts[x]) {
        ReplacedBonds(b.contracts, a, [], c, x);
      }
    }
  }

  lemma NothingStored()
    ensures StoredBytes(map[]) == 0
  {
    assert EntrySizes(map[]) == map[];
  }

  /** A destroy pays out the locked total of before the hook, capped by the escrow. */
  lemma DestroySlack(b: Book, a: Digest, hook: seq<Op>, rent: bool, h: Book, d: Book)
    requires Escrow() !in b.contracts && a != Escrow() && Hooked(b, a, hook, rent) == Some(h)
    requires Destroyed(b, a, hook, rent) == Some(d)
    ensures a in h.contracts
    ensures Slack(d) == Slack(h) + h.contracts[a].rent - if rent then Owed(h.balances, b.contracts[a].rent) else 0
  {
    HookKeeps(b, a, hook, rent, h);
    RemovedRents(h.contracts, a, Loaded(b, a).deps);
    if rent && Owed(h.balances, b.contracts[a].rent) > 0 {
      MovedEscrow(h.balances, Escrow(), a, Owed(h.balances, b.contracts[a].rent));
    }
  }

  /** A destroy keeps every remaining bond exact. It keeps the escrow solvent if and only if the slack covers the
      bytes by which the hook shrinks the contract's own storage, or no other contract has anything locked. */
  lemma DestroySolventIff(b: Book, a: Digest, hook: seq<Op>, h: Book, d: Book)
    requires Escrow() !in b.contracts && a != Escrow() && Solvent(b) && Hooked(b, a, hook, true) == Some(h)
    requires Destroyed(b, a, hook, true) == Some(d)
    ensures Bonded(d) && a in h.contracts
    ensures Solvent(d) <==>
              DEPOSIT_PER_BYTE * Shrunk(b, h, a) <= Slack(h) || Sum(Rents(h.contracts)) == h.contracts[a].rent
  {
    DestroySlack(b, a, hook, true, h, d);
    HookKeeps(b, a, hook, true, h);
    ShrunkDeposit(b, h, a);
    OneWithinSum(Rents(h.contracts), a);
    RestBonded(h, a, Loaded(b, a).deps, d);
  }

  lemma RestBonded(h: Book, a: Digest, olds: seq<Digest>, d: Book)
    requires Bonded(h) && d.contracts == Released(h.contracts, olds) - {a}
    ensures Bonded(d)
  {
    forall x | x in d.contracts ensures BondExact(d.contracts[x]) {
      assert BondExact(h.contracts[x]);
    }
  }

  // ---- the failing family is real ----

  /** One contract storing one entry, its deposit exactly in the escrow. */
  ghost function OneEntry(a: Digest, source: Bytes, key: Bytes, value: Bytes): Book {
    var n := DEPOSIT_PER_BYTE * (|key| + |value|);
    Book(map[Escrow() := n], map[a := Contract(true, source, [], 0, n, map[key := value])])
  }

  lemma OneEntrySolvent(a: Digest, source: Bytes, key: Bytes, value: Bytes)
    ensures Solvent(OneEntry(a, source, key, value)) && Slack(OneEntry(a, source, key, value)) == 0
  {
    var b := OneEntry(a, source, key, value);
    var none: map<Bytes, Bytes> := map[];
    NothingStored();
    assert none[key := value] == map[key := value];
    StoredSet(none, key, value);
    var n := b.contracts[a].rent;
    var empty: map<Digest, nat> := map[];
    assert Rents(b.contracts) == empty[a := n];
    SumSet(empty, a, n);
  }

  lemma OneDelete(b: Book, a: Digest, key: Bytes, h: Book)
    requires Live(b.contracts, a) && !IsReservedKey(key) && h == Deleted(b, a, key, true)
    ensures Hooked(b, a, [KvDel(key)], true) == Some(h)
  {
    var ops := [KvDel(key)];
    assert StepOn(b, b, [a], ops[0], true) == Some((h, [a]));
    assert ops[1..] == [];
    assert RunOn(b, b, [a], ops, true) == RunOn(b, h, [a], ops[1..], true) == Some(h);
  }

  /** A hook that deletes the entry is refunded its deposit. */
  lemma DeletingHook(a: Digest, source: Bytes, key: Bytes, value: Bytes) returns (h: Book)
    requires a != Escrow() && source != [] && !IsReservedKey(key)
    ensures Hooked(OneEntry(a, source, key, value), a, [KvDel(key)], true) == Some(h)
    ensures a in h.contracts && h.contracts[a].rent == 0 && Slack(h) == 0
  {
    var b := OneEntry(a, source, key, value);
    var n := DEPOSIT_PER_BYTE * (|key| + |value|);
    OneEntrySolvent(a, source, key, value);
    h := Deleted(b, a, key, true);
    OneDelete(b, a, key, h);
    assert Payout(b, a, n) == n;
    RefundedKeeps(b, a, n);
    WithKvKeeps(Refunded(b, a, n), a, b.contracts[a].kv - {key});
  }

  /** An upgrade with that hook puts the slot back, which owes the deposit again: the escrow ends short by the
      whole of it, to be paid out of other contracts' deposits. */
  lemma UpgradeDrains(a: Digest, source: Bytes, key: Bytes, value: Bytes, code: Bytes)
    requires a != Escrow() && source != [] && !IsReservedKey(key)
    ensures var b := OneEntry(a, source, key, value);
            var d := Swapped(b, a, [KvDel(key)], code, [], true);
            Solvent(b) && d.Some? && Slack(d.value) == -(DEPOSIT_PER_BYTE * (|key| + |value|))
  {
    var b := OneEntry(a, source, key, value);
    OneEntrySolvent(a, source, key, value);
    var h := DeletingHook(a, source, key, value);
    UpgradeSlack(b, a, [KvDel(key)], code, [], true, h, Swapped(b, a, [KvDel(key)], code, [], true).value);
  }
}
