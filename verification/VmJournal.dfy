/** One contract run (ngstate/journal.go, rent.go, imports_kv.go): every balance, storage and deposit change lands
    in an overlay that is flushed when the run completes and dropped when it traps. */
module VmJournal {
  import opened Basics
  import opened Sums

  const DEPOSIT_PER_BYTE: nat := 1_000_000_000_000

  function Escrow(): (a: Digest) {
    seq(32, _ => 1)
  }

  /** A contract slot. The reserved context keys _active, _deps, _refs and _rent are fields; kv holds the rest. */
  datatype Contract = Contract(
    active: bool, source: Bytes, deps: seq<Digest>, refs: nat, rent: nat, kv: map<Bytes, Bytes>)

  /** The balance and contract buckets. */
  datatype Book = Book(balances: map<Digest, nat>, contracts: map<Digest, Contract>)

  /** isReservedKey: a "_" prefix, unless the key is as long as an address. */
  predicate IsReservedKey(key: Bytes) {
    |key| > 0 && key[0] == 0x5f && |key| != 32
  }

  function EntrySizes(kv: map<Bytes, Bytes>): map<Bytes, nat> {
    map k | k in kv :: |k| + |kv[k]|
  }

  /** The bytes a contract stores under non-reserved keys. */
  ghost function StoredBytes(kv: map<Bytes, Bytes>): nat {
    Sum(EntrySizes(kv))
  }

  function Rents(contracts: map<Digest, Contract>): map<Digest, nat> {
    map a | a in contracts :: contracts[a].rent
  }

  /** Every contract has locked exactly the deposit its stored bytes owe. */
  ghost predicate Bonded(b: Book) {
    forall a :: a in b.contracts ==> BondExact(b.contracts[a])
  }

  ghost predicate BondExact(c: Contract) {
    c.rent == DEPOSIT_PER_BYTE * StoredBytes(c.kv)
  }

  /** What the escrow holds beyond all locked deposits. */
  ghost function Slack(b: Book): int {
    Get(b.balances, Escrow()) - Sum(Rents(b.contracts))
  }

  /** A transfer on plain balances. */
  function Moved(m: map<Digest, nat>, from: Digest, to: Digest, value: nat): (r: map<Digest, nat>)
    requires value <= Get(m, from)
  {
    var paid := m[from := Get(m, from) - value];
    paid[to := Get(paid, to) + value]
  }

  lemma MovedKeepsTotal(m: map<Digest, nat>, from: Digest, to: Digest, value: nat)
    requires value <= Get(m, from)
    ensures Sum(Moved(m, from, to, value)) == Sum(m)
  {
    var paid := m[from := Get(m, from) - value];
    SumSet(m, from, Get(m, from) - value);
    SumSet(paid, to, Get(paid, to) + value);
  }

  lemma RentSet(contracts: map<Digest, Contract>, a: Digest, c: Contract)
    requires a in contracts
    ensures Sum(Rents(contracts[a := c])) + contracts[a].rent == Sum(Rents(contracts)) + c.rent
  {
    assert Rents(contracts[a := c]) == Rents(contracts)[a := c.rent];
    SumSet(Rents(contracts), a, c.rent);
  }

  lemma RentCovered(b: Book, a: Digest)
    requires a in b.contracts && Slack(b) >= 0
    ensures b.contracts[a].rent <= Get(b.balances, Escrow())
  {
    OneWithinSum(Rents(b.contracts), a);
  }

  function SizeOf(kv: map<Bytes, Bytes>, key: Bytes): nat {
    if key in kv then |key| + |kv[key]| else 0
  }

  lemma StoredSet(kv: map<Bytes, Bytes>, key: Bytes, value: Bytes)
    ensures StoredBytes(kv[key := value]) + SizeOf(kv, key) == StoredBytes(kv) + |key| + |value|
  {
    assert EntrySizes(kv[key := value]) == EntrySizes(kv)[key := |key| + |value|];
    SumSet(EntrySizes(kv), key, |key| + |value|);
  }

  lemma StoredDel(kv: map<Bytes, Bytes>, key: Bytes)
    ensures StoredBytes(kv - {key}) + SizeOf(kv, key) == StoredBytes(kv)
  {
    assert EntrySizes(kv - {key}) == EntrySizes(kv) - {key};
    SumDel(EntrySizes(kv), key);
  }

  // ---- deposits on plain books ----

  /** lockDeposit: from the contract's balance into the escrow, and onto its running total. */
  function Locked(b: Book, a: Digest, amount: nat): (r: Book)
    requires a in b.contracts && amount <= Get(b.balances, a)
  {
    var c := b.contracts[a];
    Book(Moved(b.balances, a, Escrow(), amount), b.contracts[a := c.(rent := c.rent + amount)])
  }

  /** What a refund pays: no more than asked, than this contract locked, and than the escrow holds. */
  function Payout(b: Book, a: Digest, amount: nat): (pay: nat)
    requires a in b.contracts
    ensures pay <= amount && pay <= b.contracts[a].rent && pay <= Get(b.balances, Escrow())
  {
    var owed := if b.contracts[a].rent < amount then b.contracts[a].rent else amount;
    if Get(b.balances, Escrow()) < owed then Get(b.balances, Escrow()) else owed
  }

  /** Out of the escrow, and off the contract's running total. */
  function PaidOut(b: Book, a: Digest, pay: nat): (r: Book)
    requires a in b.contracts && pay <= b.contracts[a].rent && pay <= Get(b.balances, Escrow())
  {
    var c := b.contracts[a];
    Book(Moved(b.balances, Escrow(), a, pay), b.contracts[a := c.(rent := c.rent - pay)])
  }

  /** refundDeposit */
  function Refunded(b: Book, a: Digest, amount: nat): (r: Book)
    requires a in b.contracts
  {
    if Payout(b, a, amount) == 0 then b else PaidOut(b, a, Payout(b, a, amount))
  }

  /** The deposit move of a write that changes an entry from one size to another; none when it cannot be paid. */
  function Settled(b: Book, a: Digest, before: nat, after: nat): (r: Option<Book>)
    requires a in b.contracts
  {
    if after > before then
      var n := DEPOSIT_PER_BYTE * (after - before);
      if n <= Get(b.balances, a) then Some(Locked(b, a, n)) else None
    else if after < before then Some(Refunded(b, a, DEPOSIT_PER_BYTE * (before - after)))
    else Some(b)
  }

  function WithKv(b: Book, a: Digest, kv: map<Bytes, Bytes>): (r: Book)
    requires a in b.contracts
  {
    Book(b.balances, b.contracts[a := b.contracts[a].(kv := kv)])
  }

  /** The deposit side of kv.set; nothing before the fork. */
  function Charged(b: Book, a: Digest, key: Bytes, length: nat, rent: bool): (r: Option<Book>)
    requires a in b.contracts
    ensures r.Some? ==> a in r.value.contracts
  {
    if rent then Settled(b, a, SizeOf(b.contracts[a].kv, key), |key| + length) else Some(b)
  }

  /** kv.set on a non-reserved key. */
  function Written(b: Book, a: Digest, key: Bytes, value: Bytes, rent: bool): (r: Option<Book>)
    requires a in b.contracts
  {
    var charged := Charged(b, a, key, |value|, rent);
    if charged.None? then None else Some(WithKv(charged.value, a, b.contracts[a].kv[key := value]))
  }

  /** kv.del on a non-reserved key. */
  function Deleted(b: Book, a: Digest, key: Bytes, rent: bool): (r: Book)
    requires a in b.contracts
  {
    var kv := b.contracts[a].kv;
    var settled := if rent && key in kv then Refunded(b, a, DEPOSIT_PER_BYTE * SizeOf(kv, key)) else b;
    WithKv(settled, a, kv - {key})
  }

  /** What every host call keeps: the total supply, the reserved bookkeeping, and no loss of escrow slack. */
  ghost predicate Keeps(b: Book, d: Book) {
    && Sum(d.balances) == Sum(b.balances)
    && Slack(d) >= Slack(b)
    && SameSlots(b.contracts, d.contracts)
  }

  /** The same slots with the same code, dependencies and reference counts. */
  ghost predicate SameSlots(b: map<Digest, Contract>, d: map<Digest, Contract>) {
    && d.Keys == b.Keys
    && forall a :: a in b ==> SameSlot(b[a], d[a])
  }

  ghost predicate SameSlot(x: Contract, y: Contract) {
    x.active == y.active && x.source == y.source && x.deps == y.deps && x.refs == y.refs
  }

  lemma KeepsTransitive(b: Book, c: Book, d: Book)
    requires Keeps(b, c) && Keeps(c, d)
    ensures Keeps(b, d)
  {
    forall a | a in b.contracts ensures SameSlot(b.contracts[a], d.contracts[a]) {
      assert SameSlot(b.contracts[a], c.contracts[a]) && SameSlot(c.contracts[a], d.contracts[a]);
    }
  }

  lemma MovedEscrow(m: map<Digest, nat>, from: Digest, to: Digest, value: nat)
    requires value <= Get(m, from)
    ensures from != Escrow() ==>
              Get(Moved(m, from, to, value), Escrow()) == Get(m, Escrow()) + if to == Escrow() then value else 0
    ensures from == Escrow() != to ==> Get(Moved(m, from, to, value), Escrow()) == Get(m, Escrow()) - value
  {}

  lemma TransferKeeps(b: Book, from: Digest, to: Digest, value: nat)
    requires value <= Get(b.balances, from) && from != Escrow()
    ensures Keeps(b, Book(Moved(b.balances, from, to, value), b.contracts))
  {
    MovedKeepsTotal(b.balances, from, to, value);
    MovedEscrow(b.balances, from, to, value);
  }

  /** A slot whose locked total changed keeps everything else. */
  lemma RentKeepsSlots(contracts: map<Digest, Contract>, a: Digest, n: nat)
    requires a in contracts
    ensures SameSlots(contracts, contracts[a := contracts[a].(rent := n)])
  {}

  /** Escrow and locked total move together. */
  lemma RentMoves(b: Book, d: Book, a: Digest, n: int)
    requires a in b.contracts && b.contracts[a].rent + n >= 0
    requires d.contracts == b.contracts[a := b.contracts[a].(rent := b.contracts[a].rent + n)]
    requires Get(d.balances, Escrow()) == Get(b.balances, Escrow()) + n && Sum(d.balances) == Sum(b.balances)
    ensures Keeps(b, d) && Slack(d) == Slack(b)
  {
    RentKeepsSlots(b.contracts, a, b.contracts[a].rent + n);
    RentSet(b.contracts, a, b.contracts[a].(rent := b.contracts[a].rent + n));
  }

  lemma LockedKeeps(b: Book, a: Digest, amount: nat)
    requires a in b.contracts && a != Escrow() && amount <= Get(b.balances, a)
    ensures Keeps(b, Locked(b, a, amount)) && Slack(Locked(b, a, amount)) == Slack(b)
  {
    MovedKeepsTotal(b.balances, a, Escrow(), amount);
    MovedEscrow(b.balances, a, Escrow(), amount);
    RentMoves(b, Locked(b, a, amount), a, amount);
  }

  lemma RefundedKeeps(b: Book, a: Digest, amount: nat)
    requires a in b.contracts && a != Escrow()
    ensures Keeps(b, Refunded(b, a, amount)) && Slack(Refunded(b, a, amount)) == Slack(b)
  {
    var pay: int := Payout(b, a, amount);
    if pay > 0 {
      MovedKeepsTotal(b.balances, Escrow(), a, pay);
      MovedEscrow(b.balances, Escrow(), a, pay);
      RentMoves(b, Refunded(b, a, amount), a, -pay);
    }
  }

  lemma WithKvKeeps(b: Book, a: Digest, kv: map<Bytes, Bytes>)
    requires a in b.contracts
    ensures Keeps(b, WithKv(b, a, kv)) && Slack(WithKv(b, a, kv)) == Slack(b)
  {
    RentSet(b.contracts, a, b.contracts[a].(kv := kv));
  }

  /** A solvent escrow always covers a refund in full: the caps never bind for a contract that is exactly bonded. */
  lemma FullRefund(b: Book, a: Digest, bytes: nat)
    requires a in b.contracts && Slack(b) >= 0 && BondExact(b.contracts[a]) && bytes <= StoredBytes(b.contracts[a].kv)
    ensures Payout(b, a, DEPOSIT_PER_BYTE * bytes) == DEPOSIT_PER_BYTE * bytes
  {
    RentCovered(b, a);
  }

  lemma SettledKeeps(b: Book, a: Digest, before: nat, after: nat)
    requires a in b.contracts && a != Escrow() && Settled(b, a, before, after).Some?
    ensures var d := Settled(b, a, before, after).value;
            && Keeps(b, d) && Slack(d) == Slack(b)
            && (forall x :: x in b.contracts && x != a ==> d.contracts[x] == b.contracts[x])
            && d.contracts[a] == b.contracts[a].(rent := d.contracts[a].rent)
  {
    if after > before {
      LockedKeeps(b, a, DEPOSIT_PER_BYTE * (after - before));
    } else if after < before {
      RefundedKeeps(b, a, DEPOSIT_PER_BYTE * (before - after));
    }
  }

  /** The locked total follows the size change exactly. */
  lemma SettledBond(b: Book, a: Digest, before: nat, after: nat)
    requires a in b.contracts && Settled(b, a, before, after).Some?
    requires Slack(b) >= 0 && BondExact(b.contracts[a]) && before <= StoredBytes(b.contracts[a].kv)
    ensures Settled(b, a, before, after).value.contracts[a].rent
              == DEPOSIT_PER_BYTE * (StoredBytes(b.contracts[a].kv) - before + after)
  {
    if after < before {
      FullRefund(b, a, before - after);
    }
  }

  lemma SizeWithin(kv: map<Bytes, Bytes>, key: Bytes)
    ensures SizeOf(kv, key) <= StoredBytes(kv)
  {
    OneWithinSum(EntrySizes(kv), key);
  }

  lemma BondedAfter(b: Book, m: Book, a: Digest, kv: map<Bytes, Bytes>)
    requires Bonded(b) && a in m.contracts && m.contracts.Keys == b.contracts.Keys
    requires forall x :: x in b.contracts && x != a ==> m.contracts[x] == b.contracts[x]
    requires m.contracts[a].rent == DEPOSIT_PER_BYTE * StoredBytes(kv)
    ensures Bonded(WithKv(m, a, kv))
  {
    var d := WithKv(m, a, kv);
    forall x | x in d.contracts ensures BondExact(d.contracts[x]) {
      if x != a {
        assert BondExact(b.contracts[x]);
      }
    }
  }

  /** Storage went from one size to another by resizing one entry. */
  ghost predicate Resized(kv: map<Bytes, Bytes>, now: map<Bytes, Bytes>, before: nat, after: nat) {
    before <= StoredBytes(kv) && StoredBytes(now) == StoredBytes(kv) - before + after
  }

  lemma SettleAndStore(b: Book, m: Book, a: Digest, before: nat, after: nat, kv: map<Bytes, Bytes>)
    requires a in b.contracts && a != Escrow() && Settled(b, a, before, after) == Some(m)
    ensures Keeps(b, WithKv(m, a, kv))
  {
    SettledKeeps(b, a, before, after);
    WithKvKeeps(m, a, kv);
    KeepsTransitive(b, m, WithKv(m, a, kv));
  }

  lemma SettleAndBond(b: Book, m: Book, a: Digest, before: nat, after: nat, kv: map<Bytes, Bytes>)
    requires a in b.contracts && a != Escrow() && Settled(b, a, before, after) == Some(m)
    requires Bonded(b) && Slack(b) >= 0 && Resized(b.contracts[a].kv, kv, before, after)
    ensures Bonded(WithKv(m, a, kv))
  {
    assert BondExact(b.contracts[a]);
    SettledKeeps(b, a, before, after);
    SettledBond(b, a, before, after);
    BondedAfter(b, m, a, kv);
  }

  /** kv.set keeps supply, slack and bookkeeping, stores the value, and under the fork keeps every bond exact. */
  lemma WrittenKeeps(b: Book, a: Digest, key: Bytes, value: Bytes, rent: bool, d: Book)
    requires a in b.contracts && a != Escrow() && Written(b, a, key, value, rent) == Some(d)
    ensures Keeps(b, d) && d.contracts[a].kv == b.contracts[a].kv[key := value]
    ensures rent && Bonded(b) && Slack(b) >= 0 ==> Bonded(d)
  {
    var kv := b.contracts[a].kv;
    var now := kv[key := value];
    if rent {
      var before, after := SizeOf(kv, key), |key| + |value|;
      var m := Settled(b, a, before, after).value;
      assert d == WithKv(m, a, now);
      assert Resized(kv, now, before, after) by {
        SizeWithin(kv, key);
        StoredSet(kv, key, value);
      }
      SettleAndStore(b, m, a, before, after, now);
      if Bonded(b) && Slack(b) >= 0 {
        SettleAndBond(b, m, a, before, after, now);
      }
    } else {
      WithKvKeeps(b, a, now);
    }
  }

  lemma DeletedKeeps(b: Book, a: Digest, key: Bytes, rent: bool)
    requires a in b.contracts && a != Escrow()
    ensures var d := Deleted(b, a, key, rent);
            Keeps(b, d) && d.contracts[a].kv == b.contracts[a].kv - {key}
  {
    var kv := b.contracts[a].kv;
    var n := DEPOSIT_PER_BYTE * SizeOf(kv, key);
    var m := if rent && key in kv then Refunded(b, a, n) else b;
    if rent && key in kv {
      RefundedKeeps(b, a, n);
    }
    WithKvKeeps(m, a, kv - {key});
    KeepsTransitive(b, m, WithKv(m, a, kv - {key}));
  }

  /** Under the fork, kv.del gives back exactly the entry's deposit. */
  lemma DeletedBonded(b: Book, a: Digest, key: Bytes)
    requires a in b.contracts && a != Escrow() && Bonded(b) && Slack(b) >= 0
    ensures Bonded(Deleted(b, a, key, true))
  {
    var kv := b.contracts[a].kv;
    assert BondExact(b.contracts[a]);
    SizeWithin(kv, key);
    FullRefund(b, a, SizeOf(kv, key));
    StoredDel(kv, key);
    var m := if key in kv then Refunded(b, a, DEPOSIT_PER_BYTE * SizeOf(kv, key)) else b;
    BondedAfter(b, m, a, kv - {key});
  }

  // ---- the run ----

  lemma OverlaySet<K, V>(m: map<K, V>, n: map<K, V>, k: K, v: V)
    ensures m + n[k := v] == (m + n)[k := v]
  {}

  datatype Op =
    | Transfer(to: Digest, amount: nat)
    | KvSet(key: Bytes, value: Bytes)
    | KvDel(key: Bytes)
    | Call(callee: Digest)
    | Return
    | Trap

  /** The frames name contracts of the book, which has the slots the run started with. */
  ghost predicate Placed(base: Book, b: Book, frames: seq<Digest>) {
    && frames != [] && b.contracts.Keys == base.contracts.Keys
    && forall i :: 0 <= i < |frames| ==> frames[i] in b.contracts
  }

  /** maxDepChainDepth (ngstate/deps.go): a call chain this deep cannot go deeper. */
  const MAX_CALL_DEPTH: nat := 8

  /** One host call straight on a book, without an overlay; none is a trap. A transfer that cannot be paid is refused
      without trapping, a call to an address without a live contract just returns, and a contract that is still
      executing cannot be entered again. */
  ghost function StepOn(base: Book, b: Book, frames: seq<Digest>, op: Op, rent: bool): (r: Option<(Book, seq<Digest>)>)
    requires Placed(base, b, frames)
    ensures r.Some? ==> Placed(base, r.value.0, r.value.1)
  {
    var a := frames[|frames| - 1];
    match op
    case Transfer(to, amount) =>
      Some((if amount <= Get(b.balances, a) then Book(Moved(b.balances, a, to, amount), b.contracts) else b, frames))
    case KvSet(key, value) =>
      if IsReservedKey(key) || Written(b, a, key, value, rent).None? then None
      else Some((Written(b, a, key, value, rent).value, frames))
    case KvDel(key) =>
      if IsReservedKey(key) then None else Some((Deleted(b, a, key, rent), frames))
    case Call(callee) =>
      if |frames| >= MAX_CALL_DEPTH || callee in frames then None
      else Some((b, if Live(base.contracts, callee) then frames + [callee] else frames))
    case Return => Some((b, if |frames| > 1 then frames[..|frames| - 1] else frames))
    case Trap => None
  }

  /** A whole run straight on the book. It ends with the last call, or when the outermost frame returns. */
  ghost function RunOn(base: Book, b: Book, frames: seq<Digest>, ops: seq<Op>, rent: bool): (r: Option<Book>)
    requires Placed(base, b, frames)
    decreases |ops|
  {
    if ops == [] || (ops[0].Return? && |frames| == 1) then Some(b)
    else
      var s := StepOn(base, b, frames, ops[0], rent);
      if s.None? then None else RunOn(base, s.value.0, s.value.1, ops[1..], rent)
  }

  /** The virtual machine of one run over a fixed state. */
  class Vm {
    const base: Book
    const rent: bool
    var accounts: map<Digest, Contract>
    var balances: map<Digest, nat>
    var frames: seq<Digest>
    /** What a read inside the run sees. */
    ghost var view: Book

    ghost predicate Valid()
      reads this
    {
      && frames != []
      && (forall i :: 0 <= i < |frames| ==> frames[i] in base.contracts)
      && accounts.Keys <= base.contracts.Keys
      && Escrow() !in base.contracts
      && view.balances == base.balances + balances
      && view.contracts == base.contracts + accounts
    }

    /** newVMJournal: the own slot is loaded, the own address is the outermost frame. */
    constructor (base: Book, self: Digest, rent: bool)
      requires self in base.contracts && Escrow() !in base.contracts
      ensures Valid() && view == base && frames == [self] && this.base == base && this.rent == rent
    {
      this.base, this.rent := base, rent;
      accounts := map[self := base.contracts[self]];
      balances := map[];
      frames := [self];
      view := base;
    }

    /** currentAddress */
    function Current(): Digest
      requires frames != []
      reads this
    {
      frames[|frames| - 1]
    }

    method BalanceOf(a: Digest) returns (n: nat)
      requires Valid()
      ensures n == Get(view.balances, a)
    {
      n := if a in balances then balances[a] else Get(base.balances, a);
    }

    method SetPending(a: Digest, n: nat)
      requires Valid()
      modifies `balances, `view
      ensures Valid() && view == Book(old(view).balances[a := n], old(view).contracts)
    {
      OverlaySet(base.balances, balances, a, n);
      balances := balances[a := n];
      view := Book(view.balances[a := n], view.contracts);
    }

    /** transfer: refused when the payer cannot cover it. */
    method TransferFrom(from: Digest, to: Digest, value: nat) returns (ok: bool)
      requires Valid()
      modifies `balances, `view
      ensures Valid()
      ensures ok <==> value <= Get(old(view).balances, from)
      ensures view == if ok then Book(Moved(old(view).balances, from, to, value), old(view).contracts) else old(view)
    {
      var mine := BalanceOf(from);
      if mine < value {
        return false;
      }
      SetPending(from, mine - value);
      var theirs := BalanceOf(to);
      SetPending(to, theirs + value);
      ok := true;
    }

    /** contractOf: loads a slot on first touch. */
    method ContractOf(a: Digest) returns (c: Contract)
      requires Valid() && a in base.contracts
      modifies `accounts
      ensures Valid() && c == view.contracts[a]
    {
      if a in accounts {
        return accounts[a];
      }
      c := base.contracts[a];
      accounts := accounts[a := c];
    }

    method SetSlot(c: Contract)
      requires Valid()
      modifies `accounts, `view
      ensures Valid() && view == Book(old(view).balances, old(view).contracts[Current() := c])
    {
      OverlaySet(base.contracts, accounts, Current(), c);
      accounts := accounts[Current() := c];
      view := Book(view.balances, view.contracts[Current() := c]);
    }

    /** lockDeposit */
    method LockDeposit(amount: nat) returns (ok: bool)
      requires Valid() && amount > 0
      modifies `accounts, `balances, `view
      ensures Valid()
      ensures ok <==> amount <= Get(old(view).balances, Current())
      ensures ok ==> view == Locked(old(view), Current(), amount)
    {
      ok := TransferFrom(Current(), Escrow(), amount);
      if ok {
        var c := ContractOf(Current());
        SetSlot(c.(rent := c.rent + amount));
      }
    }

    /** refundDeposit */
    method RefundDeposit(amount: nat)
      requires Valid()
      modifies `accounts, `balances, `view
      ensures Valid() && view == Refunded(old(view), Current(), amount)
    {
      var c := ContractOf(Current());
      var owed := if c.rent < amount then c.rent else amount;
      var held := BalanceOf(Escrow());
      var pay := if held < owed then held else owed;
      if pay > 0 {
        PayBack(c, pay);
      }
    }

    /** The transfer out of the escrow and the matching cut of the running total. */
    method PayBack(c: Contract, pay: nat)
      requires Valid() && c == view.contracts[Current()] && pay <= c.rent && pay <= Get(view.balances, Escrow())
      modifies `accounts, `balances, `view
      ensures Valid()
      ensures view == PaidOut(old(view), Current(), pay)
    {
      var ok := TransferFrom(Escrow(), Current(), pay);
      SetSlot(c.(rent := c.rent - pay));
    }

    /** The deposit delta of a write. */
    method Settle(before: nat, after: nat) returns (ok: bool)
      requires Valid()
      modifies `accounts, `balances, `view
      ensures Valid()
      ensures ok <==> Settled(old(view), Current(), before, after).Some?
      ensures ok ==> Settled(old(view), Current(), before, after) == Some(view)
    {
      if after > before {
        ok := LockDeposit(DEPOSIT_PER_BYTE * (after - before));
      } else {
        if after < before {
          RefundDeposit(DEPOSIT_PER_BYTE * (before - after));
        }
        ok := true;
      }
    }

    method Store(kv: map<Bytes, Bytes>)
      requires Valid()
      modifies `accounts, `view
      ensures Valid() && view == WithKv(old(view), Current(), kv)
    {
      var c := ContractOf(Current());
      SetSlot(c.(kv := kv));
    }

    /** kv.set: a reserved key or an unaffordable deposit traps. */
    method Set(key: Bytes, value: Bytes) returns (ok: bool)
      requires Valid()
      modifies `accounts, `balances, `view
      ensures Valid()
      ensures ok <==> !IsReservedKey(key) && Written(old(view), Current(), key, value, rent).Some?
      ensures ok ==> Written(old(view), Current(), key, value, rent) == Some(view)
    {
      if IsReservedKey(key) {
        return false;
      }
      var c := ContractOf(Current());
      var paid := Charge(key, |value|, c);
      if !paid {
        return false;
      }
      ghost var mid := view;
      Store(c.kv[key := value]);
      assert view == WithKv(mid, Current(), c.kv[key := value]);
      ok := true;
    }

    method Charge(key: Bytes, length: nat, c: Contract) returns (ok: bool)
      requires Valid() && c == view.contracts[Current()]
      modifies `accounts, `balances, `view
      ensures Valid()
      ensures ok <==> Charged(old(view), Current(), key, length, rent).Some?
      ensures ok ==> Charged(old(view), Current(), key, length, rent) == Some(view)
    {
      if !rent {
        return true;
      }
      ok := Settle(SizeOf(c.kv, key), |key| + length);
    }

    /** kv.del */
    method Del(key: Bytes) returns (ok: bool)
      requires Valid()
      modifies `accounts, `balances, `view
      ensures Valid()
      ensures ok <==> !IsReservedKey(key)
      ensures ok ==> view == Deleted(old(view), Current(), key, rent)
    {
      if IsReservedKey(key) {
        return false;
      }
      var c := ContractOf(Current());
      if rent && key in c.kv {
        RefundDeposit(DEPOSIT_PER_BYTE * SizeOf(c.kv, key));
      }
      Store(c.kv - {key});
      ok := true;
    }

    /** One host call over the overlay does what it would do on the book itself; false is a trap. */
    method Step(op: Op) returns (ok: bool)
      requires Valid()
      modifies this
      ensures ok <==> StepOn(base, old(view), old(frames), op, rent).Some?
      ensures ok ==> Valid() && StepOn(base, old(view), old(frames), op, rent) == Some((view, frames))
    {
      match op
      case Transfer(to, amount) =>
        var paid := TransferFrom(Current(), to, amount);
        ok := true;
      case KvSet(key, value) =>
        ok := Set(key, value);
      case KvDel(key) =>
        ok := Del(key);
      case Call(callee) =>
        ok := |frames| < MAX_CALL_DEPTH && callee !in frames;
        if ok && Live(base.contracts, callee) {
          frames := frames + [callee];
        }
      case Return =>
        ok := true;
        if |frames| > 1 {
          frames := frames[..|frames| - 1];
        }
      case Trap =>
        ok := false;
    }

    /** flush: the pending balances and slots go to the state. */
    method Flush() returns (b: Book)
      requires Valid()
      ensures b == view
    {
      var todo := balances.Keys;
      var done: map<Digest, nat> := base.balances;
      while todo != {}
        invariant todo <= balances.Keys
        invariant forall a ::
                    Lookup(done, a) == if a in balances && a !in todo then Some(balances[a])
                                       else Lookup(base.balances, a)
      {
        var a :| a in todo;
        done := done[a := balances[a]];
        todo := todo - {a};
      }
      SameLookups(done, view.balances);
      var rest, slots := accounts.Keys, base.contracts;
      while rest != {}
        invariant rest <= accounts.Keys
        invariant forall a ::
                    Lookup(slots, a) == if a in accounts && a !in rest then Some(accounts[a])
                                        else Lookup(base.contracts, a)
      {
        var a :| a in rest;
        slots := slots[a := accounts[a]];
        rest := rest - {a};
      }
      SameLookups(slots, view.contracts);
      b := Book(done, slots);
    }
  }

  predicate Live(contracts: map<Digest, Contract>, a: Digest) {
    a in contracts && contracts[a].active && contracts[a].source != []
  }

  /** Every host call keeps supply, slots and slack, and under the fork every bond exact. */
  lemma StepKeeps(base: Book, b: Book, frames: seq<Digest>, op: Op, rent: bool, d: Book, after: seq<Digest>)
    requires Placed(base, b, frames) && Escrow() !in b.contracts
    requires StepOn(base, b, frames, op, rent) == Some((d, after))
    ensures Keeps(b, d)
    ensures rent && Bonded(b) && Slack(b) >= 0 ==> Bonded(d)
  {
    var a := frames[|frames| - 1];
    match op
    case Transfer(to, amount) =>
      if amount <= Get(b.balances, a) {
        TransferKeeps(b, a, to, amount);
      }
    case KvSet(key, value) =>
      WrittenKeeps(b, a, key, value, rent, d);
    case KvDel(key) =>
      DeletedKeeps(b, a, key, rent);
      if rent && Bonded(b) && Slack(b) >= 0 {
        DeletedBonded(b, a, key);
      }
    case Call(_) =>
    case Return =>
  }

  /** Over any interleaving of transfers, storage writes and nested calls. */
  lemma {:induction false} RunKeeps(base: Book, b: Book, frames: seq<Digest>, ops: seq<Op>, rent: bool, d: Book)
    requires Placed(base, b, frames) && Escrow() !in b.contracts && RunOn(base, b, frames, ops, rent) == Some(d)
    ensures Keeps(b, d)
    ensures rent && Bonded(b) && Slack(b) >= 0 ==> Bonded(d)
    decreases |ops|
  {
    if ops != [] && !(ops[0].Return? && |frames| == 1) {
      var (m, after) := StepOn(base, b, frames, ops[0], rent).value;
      StepKeeps(base, b, frames, ops[0], rent, m, after);
      RunKeeps(base, m, after, ops[1..], rent, d);
      KeepsTransitive(b, m, d);
    }
  }

  /** runContract: over the overlay, then flushed, is the run on the book itself; a run that traps, or has no live
      contract, changes nothing. Whatever the code does, the state afterwards has the same supply, the same slots
      with the same code, dependencies and reference counts, and no less escrow slack. */
  method RunContract(b: Book, self: Digest, ops: seq<Op>, rent: bool) returns (ok: bool, d: Book)
    requires Escrow() !in b.contracts
    ensures ok <==> Live(b.contracts, self) && RunOn(b, b, [self], ops, rent).Some?
    ensures ok ==> RunOn(b, b, [self], ops, rent) == Some(d)
    ensures !ok ==> d == b
    ensures Keeps(b, d)
    ensures rent && Bonded(b) && Slack(b) >= 0 ==> Bonded(d)
  {
    if !Live(b.contracts, self) {
      return false, b;
    }
    var vm := new Vm(b, self, rent);
    var i := 0;
    assert ops[0..] == ops;
    while i < |ops| && !(ops[i].Return? && |vm.frames| == 1)
      invariant i <= |ops|
      invariant vm.base == b && vm.rent == rent && vm.Valid() && fresh(vm)
      invariant RunOn(b, b, [self], ops, rent) == RunOn(b, vm.view, vm.frames, ops[i..], rent)
    {
      assert ops[i..][1..] == ops[i + 1..];
      var went := vm.Step(ops[i]);
      if !went {
        return false, b;
      }
      i := i + 1;
    }
    d := vm.Flush();
    ok := true;
    RunKeeps(b, b, [self], ops, rent, d);
  }
}
