/** The stored context of a contract (ngtypes/contract.go, contract_context.go): one map, in which the protocol keeps
    its own entries next to those of the contract. */
module Context {
  import opened Basics
  import opened Sums
  import opened VmJournal
  import opened DepLedger
  import opened Deposits
  import opened Ledger

  /** "_active", "_deps", "_refs" and "_rent". */
  const ACTIVE_KEY: Bytes := [0x5f, 0x61, 0x63, 0x74, 0x69, 0x76, 0x65]
  const DEPS_KEY: Bytes := [0x5f, 0x64, 0x65, 0x70, 0x73]
  const REFS_KEY: Bytes := [0x5f, 0x72, 0x65, 0x66, 0x73]
  const RENT_KEY: Bytes := [0x5f, 0x72, 0x65, 0x6e, 0x74]

  /** How a dependency list, a count and a locked total are written. */
  datatype Codec = Codec(deps: seq<Digest> -> Bytes, refs: nat -> Bytes, rent: nat -> Bytes)

  ghost predicate Faithful(enc: Codec) {
    && (forall x, y :: enc.deps(x) == enc.deps(y) ==> x == y)
    && (forall x, y :: enc.refs(x) == enc.refs(y) ==> x == y)
    && (forall x, y :: enc.rent(x) == enc.rent(y) ==> x == y)
  }

  function ActiveEntry(active: bool): (r: Option<Bytes>) {
    if active then Some([1]) else None
  }

  function DepsEntry(enc: Codec, deps: seq<Digest>): (r: Option<Bytes>) {
    if deps == [] then None else Some(enc.deps(deps))
  }

  function RefsEntry(enc: Codec, refs: nat): (r: Option<Bytes>) {
    if refs == 0 then None else Some(enc.refs(refs))
  }

  function RentEntry(enc: Codec, rent: nat): (r: Option<Bytes>) {
    if rent == 0 then None else Some(enc.rent(rent))
  }

  /** The context as it is stored. */
  function Raw(enc: Codec, c: Contract): (r: map<Bytes, Bytes>) {
    var flagged := Assign(c.kv, ACTIVE_KEY, ActiveEntry(c.active));
    var listed := Assign(flagged, DEPS_KEY, DepsEntry(enc, c.deps));
    var counted := Assign(listed, REFS_KEY, RefsEntry(enc, c.refs));
    Assign(counted, RENT_KEY, RentEntry(enc, c.rent))
  }

  /** Every one of the protocol's keys is reserved, and no two are the same. */
  lemma NamesReserved()
    ensures IsReservedKey(ACTIVE_KEY) && IsReservedKey(DEPS_KEY) && IsReservedKey(REFS_KEY) && IsReservedKey(RENT_KEY)
    ensures ACTIVE_KEY != DEPS_KEY && ACTIVE_KEY != REFS_KEY && ACTIVE_KEY != RENT_KEY
    ensures DEPS_KEY != REFS_KEY && DEPS_KEY != RENT_KEY && REFS_KEY != RENT_KEY
  {
    assert DEPS_KEY[1] == 0x64 && REFS_KEY[1] == 0x72 && RENT_KEY[1] == 0x72;
    assert REFS_KEY[3] == 0x66 && RENT_KEY[3] == 0x6e;
  }

  /** An address is never a reserved key, whatever its first byte. */
  lemma AddressUsable(a: Digest)
    ensures !IsReservedKey(a)
  {}

  lemma RawAt(enc: Codec, c: Contract, key: Bytes)
    ensures Lookup(Raw(enc, c), key)
         == if key == ACTIVE_KEY then ActiveEntry(c.active)
            else if key == DEPS_KEY then DepsEntry(enc, c.deps)
            else if key == REFS_KEY then RefsEntry(enc, c.refs)
            else if key == RENT_KEY then RentEntry(enc, c.rent)
            else Lookup(c.kv, key)
  {
    NamesReserved();
  }

  /** A contract reads its own entries and sees none of the protocol's among them. */
  lemma ReadsOwn(enc: Codec, c: Contract, key: Bytes)
    requires !IsReservedKey(key)
    ensures Lookup(Raw(enc, c), key) == Lookup(c.kv, key)
  {
    NamesReserved();
    RawAt(enc, c, key);
  }

  /** kv.set on the stored context is the write to the contract's own entries. */
  lemma SetsOwn(enc: Codec, c: Contract, key: Bytes, value: Bytes)
    requires !IsReservedKey(key)
    ensures Raw(enc, c)[key := value] == Raw(enc, c.(kv := c.kv[key := value]))
  {
    var d := c.(kv := c.kv[key := value]);
    NamesReserved();
    forall k ensures Lookup(Raw(enc, c)[key := value], k) == Lookup(Raw(enc, d), k) {
      RawAt(enc, c, k);
      RawAt(enc, d, k);
    }
    SameLookups(Raw(enc, c)[key := value], Raw(enc, d));
  }

  /** kv.del likewise. */
  lemma DeletesOwn(enc: Codec, c: Contract, key: Bytes)
    requires !IsReservedKey(key)
    ensures Raw(enc, c) - {key} == Raw(enc, c.(kv := c.kv - {key}))
  {
    var d := c.(kv := c.kv - {key});
    NamesReserved();
    forall k ensures Lookup(Raw(enc, c) - {key}, k) == Lookup(Raw(enc, d), k) {
      RawAt(enc, c, k);
      RawAt(enc, d, k);
    }
    SameLookups(Raw(enc, c) - {key}, Raw(enc, d));
  }

  lemma SetsEntry(enc: Codec, c: Contract, d: Contract, key: Bytes, v: Option<Bytes>)
    requires forall k :: Lookup(Raw(enc, d), k) == if k == key then v else Lookup(Raw(enc, c), k)
    ensures Assign(Raw(enc, c), key, v) == Raw(enc, d)
  {
    SameLookups(Assign(Raw(enc, c), key, v), Raw(enc, d));
  }

  /** setContractDeps on the stored context is the write to the field. */
  lemma SetsDeps(enc: Codec, c: Contract, deps: seq<Digest>)
    ensures Assign(Raw(enc, c), DEPS_KEY, DepsEntry(enc, deps)) == Raw(enc, c.(deps := deps))
  {
    var d := c.(deps := deps);
    NamesReserved();
    forall k ensures Lookup(Raw(enc, d), k) == if k == DEPS_KEY then DepsEntry(enc, deps) else Lookup(Raw(enc, c), k) {
      RawAt(enc, c, k);
      RawAt(enc, d, k);
    }
    SetsEntry(enc, c, d, DEPS_KEY, DepsEntry(enc, deps));
  }

  /** So is setRefCount. */
  lemma SetsRefs(enc: Codec, c: Contract, refs: nat)
    ensures Assign(Raw(enc, c), REFS_KEY, RefsEntry(enc, refs)) == Raw(enc, c.(refs := refs))
  {
    var d := c.(refs := refs);
    NamesReserved();
    forall k ensures Lookup(Raw(enc, d), k) == if k == REFS_KEY then RefsEntry(enc, refs) else Lookup(Raw(enc, c), k) {
      RawAt(enc, c, k);
      RawAt(enc, d, k);
    }
    SetsEntry(enc, c, d, REFS_KEY, RefsEntry(enc, refs));
  }

  /** And setLockedDeposit. */
  lemma SetsRent(enc: Codec, c: Contract, rent: nat)
    ensures Assign(Raw(enc, c), RENT_KEY, RentEntry(enc, rent)) == Raw(enc, c.(rent := rent))
  {
    var d := c.(rent := rent);
    NamesReserved();
    forall k ensures Lookup(Raw(enc, d), k) == if k == RENT_KEY then RentEntry(enc, rent) else Lookup(Raw(enc, c), k) {
      RawAt(enc, c, k);
      RawAt(enc, d, k);
    }
    SetsEntry(enc, c, d, RENT_KEY, RentEntry(enc, rent));
  }

  /** No entry of the contract's own lies under a reserved key. */
  ghost predicate Unreserved(m: Slots) {
    forall a, k :: a in m && k in m[a].kv ==> !IsReservedKey(k)
  }

  /** Then the deposit is owed for exactly the stored entries under keys that are not reserved. */
  lemma OwnPart(enc: Codec, c: Contract)
    requires forall k :: k in c.kv ==> !IsReservedKey(k)
    ensures (map k | k in Raw(enc, c) && !IsReservedKey(k) :: Raw(enc, c)[k]) == c.kv
  {
    var own := map k | k in Raw(enc, c) && !IsReservedKey(k) :: Raw(enc, c)[k];
    forall k ensures Lookup(own, k) == Lookup(c.kv, k) {
      if !IsReservedKey(k) {
        ReadsOwn(enc, c, k);
      }
    }
    SameLookups(own, c.kv);
  }

  /** And the stored context determines the contract. */
  lemma RawInjective(enc: Codec, c: Contract, d: Contract)
    requires Faithful(enc) && Raw(enc, c) == Raw(enc, d) && c.source == d.source
    requires forall k :: k in c.kv || k in d.kv ==> !IsReservedKey(k)
    ensures c == d
  {
    NamesReserved();
    RawAt(enc, c, ACTIVE_KEY);
    RawAt(enc, d, ACTIVE_KEY);
    RawAt(enc, c, DEPS_KEY);
    RawAt(enc, d, DEPS_KEY);
    RawAt(enc, c, REFS_KEY);
    RawAt(enc, d, REFS_KEY);
    RawAt(enc, c, RENT_KEY);
    RawAt(enc, d, RENT_KEY);
    forall k ensures Lookup(c.kv, k) == Lookup(d.kv, k) {
      if !IsReservedKey(k) {
        ReadsOwn(enc, c, k);
        ReadsOwn(enc, d, k);
      }
    }
    SameLookups(c.kv, d.kv);
  }

  // ---- over runs and blocks ----

  lemma WrittenAt(b: Book, a: Digest, key: Bytes, value: Bytes, rent: bool, d: Book)
    requires a in b.contracts && Written(b, a, key, value, rent) == Some(d)
    ensures a in d.contracts && d.contracts[a].kv == b.contracts[a].kv[key := value]
    ensures forall x :: x != a ==> Lookup(d.contracts, x) == Lookup(b.contracts, x)
  {}

  lemma DeletedAt(b: Book, a: Digest, key: Bytes, rent: bool, d: Book)
    requires a in b.contracts && Deleted(b, a, key, rent) == d
    ensures a in d.contracts && d.contracts[a].kv == b.contracts[a].kv - {key}
    ensures forall x :: x != a ==> Lookup(d.contracts, x) == Lookup(b.contracts, x)
  {}

  lemma OneChanged(m: Slots, n: Slots, a: Digest, key: Bytes)
    requires Unreserved(m) && a in m && a in n && n[a].kv.Keys <= m[a].kv.Keys + {key} && !IsReservedKey(key)
    requires forall x :: x != a ==> Lookup(n, x) == Lookup(m, x)
    ensures Unreserved(n)
  {
    forall x, k | x in n && k in n[x].kv ensures !IsReservedKey(k) {
      assert Lookup(n, x) == Lookup(m, x) || x == a;
    }
  }

  lemma StepUnreserved(base: Book, b: Book, frames: seq<Digest>, op: Op, rent: bool, d: Book, after: seq<Digest>)
    requires Placed(base, b, frames) && Unreserved(b.contracts)
    requires StepOn(base, b, frames, op, rent) == Some((d, after))
    ensures Unreserved(d.contracts)
  {
    var a := frames[|frames| - 1];
    match op
    case KvSet(key, value) =>
      WrittenAt(b, a, key, value, rent, d);
      OneChanged(b.contracts, d.contracts, a, key);
    case KvDel(key) =>
      DeletedAt(b, a, key, rent, d);
      OneChanged(b.contracts, d.contracts, a, key);
    case _ =>
  }

  lemma {:induction false} RunUnreserved(base: Book, b: Book, frames: seq<Digest>, ops: seq<Op>, rent: bool, d: Book)
    requires Placed(base, b, frames) && Unreserved(b.contracts) && RunOn(base, b, frames, ops, rent) == Some(d)
    ensures Unreserved(d.contracts)
    decreases |ops|
  {
    if ops != [] && !(ops[0].Return? && |frames| == 1) {
      var (m, after) := StepOn(base, b, frames, ops[0], rent).value;
      StepUnreserved(base, b, frames, ops[0], rent, m, after);
      RunUnreserved(base, m, after, ops[1..], rent, d);
    }
  }

  /** Whatever keys a run names: under a reserved key only the locked total can differ, in any contract's stored
      context. */
  lemma RunSparesReserved(enc: Codec, base: Book, b: Book, frames: seq<Digest>, ops: seq<Op>, rent: bool, d: Book,
                          a: Digest, key: Bytes)
    requires Placed(base, b, frames) && Escrow() !in b.contracts && Unreserved(b.contracts) && a in b.contracts
    requires RunOn(base, b, frames, ops, rent) == Some(d) && IsReservedKey(key) && key != RENT_KEY
    ensures a in d.contracts && Lookup(Raw(enc, d.contracts[a]), key) == Lookup(Raw(enc, b.contracts[a]), key)
  {
    RunKeeps(base, b, frames, ops, rent, d);
    RunUnreserved(base, b, frames, ops, rent, d);
    assert SameSlot(b.contracts[a], d.contracts[a]);
    RawAt(enc, b.contracts[a], key);
    RawAt(enc, d.contracts[a], key);
  }

  lemma AfterUnreserved(b: Book, a: Digest, ops: seq<Op>, rent: bool)
    requires Unreserved(b.contracts)
    ensures Unreserved(After(b, a, ops, rent).contracts)
  {
    if Hooked(b, a, ops, rent).Some? {
      RunUnreserved(b, b, [a], ops, rent, Hooked(b, a, ops, rent).value);
    }
  }

  lemma ReplacedUnreserved(m: Slots, a: Digest, olds: seq<Digest>, c: Contract)
    requires Unreserved(m) && forall k :: k in c.kv ==> !IsReservedKey(k)
    ensures Unreserved(Replaced(m, a, olds, c)) && Unreserved(Released(m, olds) - {a})
  {}

  lemma DeployUnreserved(b: Book, tx: Tx, deps: seq<Digest>, rent: bool)
    requires tx.Deploy? && Unreserved(b.contracts)
    ensures Unreserved(Deployed(b, tx, deps, rent).contracts) && Unreserved(Removed(b, tx, rent).contracts)
  {
    AfterUnreserved(b, tx.from, tx.hook, rent);
    var slot, h := Loaded(b, tx.from), After(b, tx.from, tx.hook, rent);
    ReplacedUnreserved(h.contracts, tx.from, slot.deps, slot.(source := tx.source, active := true, deps := deps));
    var s := Swapped(b, tx.from, tx.hook, tx.source, deps, rent);
    if s.Some? {
      AfterUnreserved(s.value, tx.from, tx.init, rent);
    }
  }

  lemma PolicyUnreserved(b: Book, tx: Tx, rent: bool, v: Book)
    requires !tx.Generate? && Unreserved(b.contracts) && Validated(b, tx.from, tx.policy, rent) == Some(v)
    ensures Unreserved(v.contracts)
  {
    if tx.policy.Some? {
      AfterUnreserved(b, tx.from, tx.policy.value, rent);
    }
  }

  lemma TransactUnreserved(v: Book, tx: Tx, rent: bool, d: Book)
    requires tx.Transact? && Unreserved(v.contracts) && Transacted(v, tx, rent) == Some(d)
    ensures Unreserved(d.contracts)
  {
    AfterUnreserved(Book(Paid(v.balances, tx.from, tx.to, tx.value, tx.fee), v.contracts), tx.to, tx.run, rent);
  }

  lemma DeployedByUnreserved(v: Book, tx: Tx, rent: bool, d: Book)
    requires tx.Deploy? && Unreserved(v.contracts) && DeployedBy(v, tx, rent) == Some(d)
    ensures Unreserved(d.contracts)
  {
    var charged := Book(v.balances[tx.from := Get(v.balances, tx.from) - tx.fee], v.contracts);
    DeployUnreserved(charged, tx, if tx.imports.Some? then Firsts(tx.imports.value) else [], rent);
  }

  lemma TxUnreserved(b: Book, tx: Tx, rent: bool, d: Book)
    requires Unreserved(b.contracts) && TxOn(b, tx, rent) == Some(d)
    ensures Unreserved(d.contracts)
  {
    if !tx.Generate? {
      var v := Validated(b, tx.from, tx.policy, rent).value;
      PolicyUnreserved(b, tx, rent, v);
      if tx.Transact? {
        TransactUnreserved(v, tx, rent, d);
      } else {
        DeployedByUnreserved(v, tx, rent, d);
      }
    }
  }

  lemma {:induction false} TxsUnreserved(b: Book, txs: seq<Tx>, rent: bool, d: Book)
    requires Unreserved(b.contracts) && TxsOn(b, txs, rent) == Some(d)
    ensures Unreserved(d.contracts)
  {
    if txs != [] {
      var front := txs[..|txs| - 1];
      TxsUnreserved(b, front, rent, TxsOn(b, front, rent).value);
      TxUnreserved(TxsOn(b, front, rent).value, txs[|txs| - 1], rent, d);
    }
  }

  /** Every block keeps the contract's own entries clear of the reserved keys. */
  lemma BlockUnreserved(b: Book, block: Block, rent: bool, d: Book)
    requires Unreserved(b.contracts) && BlockOn(b, block, rent) == Some(d)
    ensures Unreserved(d.contracts)
  {
    TxsUnreserved(Book(Billed(b.balances, block.commits).value, b.contracts), block.txs, rent, d);
  }
}
