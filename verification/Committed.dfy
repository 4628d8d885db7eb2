/** Which leaf each bucket entry is committed under (ngstate/statetrie.go), and how one bucket write moves
    the committed view. */
module Committed {
  import opened Basics
  import opened Domains
  import opened KeyOrder
  import opened SparseMerkle
  import opened StateTrie
  import CommitReveal

  type Bytes1 = b: Bytes | b != [] witness [0]

  /** A stored contract slot: code by hash, plus the rest of the record. */
  datatype Slot = Slot(codeHash: Digest, context: Bytes)

  /** The RLP encoding of a slot; only its being non-empty matters. */
  type SlotCodec = Slot -> Bytes1

  const DOMAIN_BALANCE: bv8 := 0x01
  const DOMAIN_KEY: bv8 := 0x02
  const DOMAIN_CONTRACT: bv8 := 0x03
  const DOMAIN_COMMIT: bv8 := 0x04
  const DOMAIN_BEACON: bv8 := 0x05

  /** big.Int.Bytes: minimal big-endian, empty for zero. */
  function BalanceBytes(n: nat): (r: Bytes)
    ensures r == [] <==> n == 0
  {
    if n == 0 then [] else BalanceBytes(n / 256) + [ByteOf(n % 256)]
  }

  lemma {:induction false} AppendByte(x: Bytes, d: bv8)
    ensures FromBigEndian(x + [d]) == 256 * FromBigEndian(x) + d as int
  {
    if x == [] {
      assert x + [d] == [d] && [d][1..] == [];
    } else {
      assert (x + [d])[1..] == x[1..] + [d];
      AppendByte(x[1..], d);
      assert Pow256(|x|) == 256 * Pow256(|x| - 1);
      HighByte(x[0] as int, Pow256(|x| - 1));
    }
  }

  lemma HighByte(c: nat, p: nat)
    ensures c * (256 * p) == 256 * (c * p)
  {}

  /** The leaf bytes of a balance give the number back, and do not start with a zero byte. */
  lemma {:induction false} BalanceRoundTrip(n: nat)
    ensures FromBigEndian(BalanceBytes(n)) == n
    ensures n > 0 ==> BalanceBytes(n)[0] != 0
  {
    if n > 0 {
      BalanceRoundTrip(n / 256);
      AppendByte(BalanceBytes(n / 256), ByteOf(n % 256));
      if n / 256 == 0 {
        assert BalanceBytes(n) == [ByteOf(n % 256)];
      } else {
        assert BalanceBytes(n)[0] == BalanceBytes(n / 256)[0];
      }
    }
  }

  /** ngtypes.BeaconStateKey, "randao", the fixed key of the single beacon leaf. */
  const BEACON_KEY: Bytes := [0x72, 0x61, 0x6e, 0x64, 0x61, 0x6f]

  function BalanceKey(a: Digest): LeafKey { LeafKey(DOMAIN_BALANCE, a) }
  function RegistryKey(a: Digest): LeafKey { LeafKey(DOMAIN_KEY, a) }
  function ContractKey(a: Digest): LeafKey { LeafKey(DOMAIN_CONTRACT, a) }
  function BeaconKey(u: ()): LeafKey { LeafKey(DOMAIN_BEACON, BEACON_KEY) }

  /** commitKey: heightLE(8) ‖ Hash(32). */
  function CommitKey(x: CommitReveal.Key): (r: LeafKey)
    requires x.0 < HEIGHTS
  {
    LeafKey(DOMAIN_COMMIT, HeightLE(x.0) + x.1)
  }

  lemma CommitKeyInjective(x: CommitReveal.Key, y: CommitReveal.Key)
    requires x.0 < HEIGHTS && y.0 < HEIGHTS && CommitKey(x) == CommitKey(y)
    ensures x == y
  {
    assert CommitKey(x).key[..8] == HeightLE(x.0) && CommitKey(y).key[..8] == HeightLE(y.0);
    assert CommitKey(x).key[8..] == x.1 && CommitKey(y).key[8..] == y.1;
    HeightLEInjective(x.0, y.0);
  }

  /** The five committed buckets. */
  datatype Plain = Plain(
    balances: map<Digest, nat>,
    keys: map<Digest, Bytes1>,
    contracts: map<Digest, Slot>,
    commits: map<CommitReveal.Key, Digest>,
    beacon: map<(), Bytes1>)

  function NonEmpty(b: Bytes): Option<Bytes> {
    if b == [] then None else Some(b)
  }

  /** The leaf bytes of a value; nothing when absent, and nothing for a zero balance. */
  function BalanceLeaf(v: Option<nat>): Bytes { if v.Some? then BalanceBytes(v.value) else [] }
  function RawLeaf(v: Option<Bytes1>): Bytes { if v.Some? then v.value else [] }
  function SlotLeaf(enc: SlotCodec, v: Option<Slot>): Bytes { if v.Some? then enc(v.value) else [] }
  function FromLeaf(v: Option<Digest>): Bytes { if v.Some? then v.value else [] }

  ghost predicate KnownKey(k: LeafKey) {
    || (exists a: Digest :: k == BalanceKey(a))
    || (exists a: Digest :: k == RegistryKey(a))
    || (exists a: Digest :: k == ContractKey(a))
    || (exists x: CommitReveal.Key :: x.0 < HEIGHTS && k == CommitKey(x))
    || k == BeaconKey(())
  }

  ghost predicate BalancesIn(flat: Flat, m: map<Digest, nat>) {
    forall a: Digest :: Lookup(flat, BalanceKey(a)) == NonEmpty(BalanceLeaf(Lookup(m, a)))
  }

  ghost predicate KeysIn(flat: Flat, m: map<Digest, Bytes1>) {
    forall a: Digest :: Lookup(flat, RegistryKey(a)) == NonEmpty(RawLeaf(Lookup(m, a)))
  }

  ghost predicate ContractsIn(enc: SlotCodec, flat: Flat, m: map<Digest, Slot>) {
    forall a: Digest :: Lookup(flat, ContractKey(a)) == NonEmpty(SlotLeaf(enc, Lookup(m, a)))
  }

  ghost predicate CommitsIn(flat: Flat, m: map<CommitReveal.Key, Digest>) {
    forall x: CommitReveal.Key :: x.0 < HEIGHTS ==> Lookup(flat, CommitKey(x)) == NonEmpty(FromLeaf(Lookup(m, x)))
  }

  ghost predicate BeaconIn(flat: Flat, m: map<(), Bytes1>) {
    Lookup(flat, BeaconKey(())) == NonEmpty(RawLeaf(Lookup(m, ())))
  }

  ghost predicate OnlyKnown(flat: Flat) {
    forall k :: k in flat ==> KnownKey(k)
  }

  /** The mirrored entries are exactly the committed view of the buckets. */
  ghost predicate InSync(enc: SlotCodec, flat: Flat, b: Plain) {
    && BalancesIn(flat, b.balances)
    && KeysIn(flat, b.keys)
    && ContractsIn(enc, flat, b.contracts)
    && CommitsIn(flat, b.commits)
    && BeaconIn(flat, b.beacon)
    && OnlyKnown(flat)
  }

  /** The committed view is a function of the buckets. */
  lemma InSyncFunctional(enc: SlotCodec, f: Flat, g: Flat, b: Plain)
    requires InSync(enc, f, b) && InSync(enc, g, b)
    ensures f == g
  {
    forall k ensures Lookup(f, k) == Lookup(g, k) {
      if k in f || k in g {
        assert KnownKey(k);
        KnownSame(enc, f, g, b, k);
      }
    }
    SameLookups(f, g);
  }

  lemma KnownSame(enc: SlotCodec, f: Flat, g: Flat, b: Plain, k: LeafKey)
    requires InSync(enc, f, b) && InSync(enc, g, b) && KnownKey(k)
    ensures Lookup(f, k) == Lookup(g, k)
  {
    if a: Digest :| k == BalanceKey(a) {
    } else if a: Digest :| k == RegistryKey(a) {
    } else if a: Digest :| k == ContractKey(a) {
    } else if x: CommitReveal.Key :| x.0 < HEIGHTS && k == CommitKey(x) {
    }
  }

  /** The committed view of the buckets. */
  ghost function View(enc: SlotCodec, b: Plain): (r: Flat)
    ensures forall f :: InSync(enc, f, b) ==> f == r
  {
    if f :| InSync(enc, f, b) then
      assert forall g :: InSync(enc, g, b) ==> g == f by {
        forall g | InSync(enc, g, b) ensures g == f {
          InSyncFunctional(enc, g, f, b);
        }
      }
      f
    else map[]
  }

  /** The state root of the buckets. */
  ghost function RootOf(H: Hasher, enc: SlotCodec, b: Plain): (r: Digest) {
    TreeRoot(H, LeavesOf(H, View(enc, b)))
  }

  ghost function RootsOf(H: Hasher, enc: SlotCodec): (r: Plain -> Digest) {
    (b: Plain) => RootOf(H, enc, b)
  }

  // ---- the committed view determines the buckets ----

  /** getBalance: absent reads as zero. */
  function Balance(m: map<Digest, nat>, a: Digest): (r: nat) {
    if a in m then m[a] else 0
  }

  ghost predicate Injective(enc: SlotCodec) {
    forall x, y :: enc(x) == enc(y) ==> x == y
  }

  /** The same balances, keys, pending commitments and seed, and the same slots when their encodings differ. */
  ghost predicate SamePlain(enc: SlotCodec, b: Plain, c: Plain) {
    && (forall a: Digest :: Balance(b.balances, a) == Balance(c.balances, a))
    && b.keys == c.keys
    && (forall x: CommitReveal.Key :: x.0 < HEIGHTS ==> Lookup(b.commits, x) == Lookup(c.commits, x))
    && Lookup(b.beacon, ()) == Lookup(c.beacon, ())
    && (Injective(enc) ==> b.contracts == c.contracts)
  }

  lemma LeafBalance(m: map<Digest, nat>, n: map<Digest, nat>, a: Digest)
    requires NonEmpty(BalanceLeaf(Lookup(m, a))) == NonEmpty(BalanceLeaf(Lookup(n, a)))
    ensures Balance(m, a) == Balance(n, a)
  {
    BalanceRoundTrip(Balance(m, a));
    BalanceRoundTrip(Balance(n, a));
    assert BalanceBytes(0) == [];
    assert BalanceLeaf(Lookup(m, a)) == BalanceBytes(Balance(m, a));
    assert BalanceLeaf(Lookup(n, a)) == BalanceBytes(Balance(n, a));
  }

  /** One committed view stands for one state. */
  lemma InSyncInjective(enc: SlotCodec, f: Flat, b: Plain, c: Plain)
    requires InSync(enc, f, b) && InSync(enc, f, c)
    ensures SamePlain(enc, b, c)
  {
    forall a: Digest ensures Balance(b.balances, a) == Balance(c.balances, a) {
      assert Lookup(f, BalanceKey(a)) == NonEmpty(BalanceLeaf(Lookup(b.balances, a)));
      LeafBalance(b.balances, c.balances, a);
    }
    SameKeys(f, b.keys, c.keys);
    SameCommits(f, b.commits, c.commits);
    if Injective(enc) {
      SameSlotsIn(enc, f, b.contracts, c.contracts);
    }
  }

  lemma SameKeys(f: Flat, m: map<Digest, Bytes1>, n: map<Digest, Bytes1>)
    requires KeysIn(f, m) && KeysIn(f, n)
    ensures m == n
  {
    forall a: Digest ensures Lookup(m, a) == Lookup(n, a) {
      assert NonEmpty(RawLeaf(Lookup(m, a))) == NonEmpty(RawLeaf(Lookup(n, a)));
    }
    SameLookups(m, n);
  }

  lemma SameCommits(f: Flat, m: map<CommitReveal.Key, Digest>, n: map<CommitReveal.Key, Digest>)
    requires CommitsIn(f, m) && CommitsIn(f, n)
    ensures forall x: CommitReveal.Key :: x.0 < HEIGHTS ==> Lookup(m, x) == Lookup(n, x)
  {
    forall x: CommitReveal.Key | x.0 < HEIGHTS ensures Lookup(m, x) == Lookup(n, x) {
      assert NonEmpty(FromLeaf(Lookup(m, x))) == NonEmpty(FromLeaf(Lookup(n, x)));
    }
  }

  lemma SameSlotsIn(enc: SlotCodec, f: Flat, m: map<Digest, Slot>, n: map<Digest, Slot>)
    requires ContractsIn(enc, f, m) && ContractsIn(enc, f, n) && Injective(enc)
    ensures m == n
  {
    forall a: Digest ensures Lookup(m, a) == Lookup(n, a) {
      assert NonEmpty(SlotLeaf(enc, Lookup(m, a))) == NonEmpty(SlotLeaf(enc, Lookup(n, a)));
    }
    SameLookups(m, n);
  }

  /** Some key shows the hash function broken on what the two tries hash. */
  ghost predicate SomeClash(H: Hasher, f: Flat, g: Flat) {
    exists k :: k in f.Keys + g.Keys && KeyClash(H, LeavesOf(H, f), LeavesOf(H, g), f, g, k)
  }

  /** One root stands for one state: equal roots mean equal balances, keys, commitments, seed and slots, unless the
      hash function is broken on bytes that the two tries hash for one of their entries. */
  lemma RootBinds(H: Hasher, enc: SlotCodec, b: Plain, c: Plain, f: Flat, g: Flat)
    requires InSync(enc, f, b) && InSync(enc, g, c) && NoCollision(H, f.Keys + g.Keys)
    requires RootOf(H, enc, b) == RootOf(H, enc, c)
    ensures SamePlain(enc, b, c) || SomeClash(H, f, g)
  {
    var keys := f.Keys + g.Keys;
    LeavesMirror(H, f, keys);
    LeavesMirror(H, g, keys);
    if !SomeClash(H, f, g) {
      forall k ensures Lookup(f, k) == Lookup(g, k) {
        SameRootSameEntry(H, LeavesOf(H, f), LeavesOf(H, g), f, g, keys, k);
      }
      SameLookups(f, g);
      InSyncInjective(enc, f, b, c);
    }
  }

  /** A write under one domain's tag leaves the other domains' leaves alone. */
  lemma OtherDomains(enc: SlotCodec, flat: Flat, b: Plain, k: LeafKey, v: Option<Bytes>)
    requires InSync(enc, flat, b) && KnownKey(k)
    ensures var f := Assign(flat, k, v);
            && (k.tag != DOMAIN_BALANCE ==> BalancesIn(f, b.balances))
            && (k.tag != DOMAIN_KEY ==> KeysIn(f, b.keys))
            && (k.tag != DOMAIN_CONTRACT ==> ContractsIn(enc, f, b.contracts))
            && (k.tag != DOMAIN_COMMIT ==> CommitsIn(f, b.commits))
            && (k.tag != DOMAIN_BEACON ==> BeaconIn(f, b.beacon))
            && OnlyKnown(f)
  {
    OtherBalances(flat, b.balances, k, v);
    OtherKeys(flat, b.keys, k, v);
    OtherContracts(enc, flat, b.contracts, k, v);
    OtherCommits(flat, b.commits, k, v);
    StillKnown(flat, k, v);
  }

  lemma OtherBalances(flat: Flat, m: map<Digest, nat>, k: LeafKey, v: Option<Bytes>)
    requires BalancesIn(flat, m)
    ensures k.tag != DOMAIN_BALANCE ==> BalancesIn(Assign(flat, k, v), m)
  {}

  lemma OtherKeys(flat: Flat, m: map<Digest, Bytes1>, k: LeafKey, v: Option<Bytes>)
    requires KeysIn(flat, m)
    ensures k.tag != DOMAIN_KEY ==> KeysIn(Assign(flat, k, v), m)
  {}

  lemma OtherContracts(enc: SlotCodec, flat: Flat, m: map<Digest, Slot>, k: LeafKey, v: Option<Bytes>)
    requires ContractsIn(enc, flat, m)
    ensures k.tag != DOMAIN_CONTRACT ==> ContractsIn(enc, Assign(flat, k, v), m)
  {}

  lemma OtherCommits(flat: Flat, m: map<CommitReveal.Key, Digest>, k: LeafKey, v: Option<Bytes>)
    requires CommitsIn(flat, m)
    ensures k.tag != DOMAIN_COMMIT ==> CommitsIn(Assign(flat, k, v), m)
  {}

  lemma StillKnown(flat: Flat, k: LeafKey, v: Option<Bytes>)
    requires OnlyKnown(flat) && KnownKey(k)
    ensures OnlyKnown(Assign(flat, k, v))
  {
    var f := Assign(flat, k, v);
    forall x | x in f ensures KnownKey(x) {
      assert Lookup(f, x) == if x == k then v else Lookup(flat, x);
    }
  }

  lemma SyncBalance(enc: SlotCodec, flat: Flat, b: Plain, a: Digest, v: Option<nat>)
    requires InSync(enc, flat, b)
    ensures InSync(enc, Assign(flat, BalanceKey(a), NonEmpty(BalanceLeaf(v))), b.(balances := Assign(b.balances, a, v)))
  {
    OtherDomains(enc, flat, b, BalanceKey(a), NonEmpty(BalanceLeaf(v)));
  }

  lemma SyncKey(enc: SlotCodec, flat: Flat, b: Plain, a: Digest, v: Option<Bytes1>)
    requires InSync(enc, flat, b)
    ensures InSync(enc, Assign(flat, RegistryKey(a), NonEmpty(RawLeaf(v))), b.(keys := Assign(b.keys, a, v)))
  {
    OtherDomains(enc, flat, b, RegistryKey(a), NonEmpty(RawLeaf(v)));
  }

  lemma SyncContract(enc: SlotCodec, flat: Flat, b: Plain, a: Digest, v: Option<Slot>)
    requires InSync(enc, flat, b)
    ensures InSync(enc, Assign(flat, ContractKey(a), NonEmpty(SlotLeaf(enc, v))),
                   b.(contracts := Assign(b.contracts, a, v)))
  {
    OtherDomains(enc, flat, b, ContractKey(a), NonEmpty(SlotLeaf(enc, v)));
  }

  lemma SyncCommit(enc: SlotCodec, flat: Flat, b: Plain, x: CommitReveal.Key, v: Option<Digest>)
    requires InSync(enc, flat, b) && x.0 < HEIGHTS
    ensures InSync(enc, Assign(flat, CommitKey(x), NonEmpty(FromLeaf(v))), b.(commits := Assign(b.commits, x, v)))
  {
    OtherDomains(enc, flat, b, CommitKey(x), NonEmpty(FromLeaf(v)));
    CommitWritten(flat, b.commits, x, v);
  }

  lemma CommitWritten(flat: Flat, m: map<CommitReveal.Key, Digest>, x: CommitReveal.Key, v: Option<Digest>)
    requires CommitsIn(flat, m) && x.0 < HEIGHTS
    ensures CommitsIn(Assign(flat, CommitKey(x), NonEmpty(FromLeaf(v))), Assign(m, x, v))
  {
    var f := Assign(flat, CommitKey(x), NonEmpty(FromLeaf(v)));
    forall y: CommitReveal.Key | y.0 < HEIGHTS
      ensures Lookup(f, CommitKey(y)) == NonEmpty(FromLeaf(Lookup(Assign(m, x, v), y)))
    {
      if CommitKey(y) == CommitKey(x) {
        CommitKeyInjective(x, y);
      }
    }
  }

  lemma SyncBeacon(enc: SlotCodec, flat: Flat, b: Plain, v: Option<Bytes1>)
    requires InSync(enc, flat, b)
    ensures InSync(enc, Assign(flat, BeaconKey(()), NonEmpty(RawLeaf(v))), b.(beacon := Assign(b.beacon, (), v)))
  {
    OtherDomains(enc, flat, b, BeaconKey(()), NonEmpty(RawLeaf(v)));
  }

  lemma SyncEmpty(enc: SlotCodec)
    ensures InSync(enc, map[], Plain(map[], map[], map[], map[], map[]))
  {}

  // ---- RebuildTrie: clear the node bucket and re-insert every live entry, bucket by bucket ----

  /** A zero balance is an absent leaf. */
  method InsertBalances(trie: Trie, enc: SlotCodec, m: map<Digest, nat>, ghost b: Plain)
    requires trie.Valid() && InSync(enc, trie.flat, b) && b.balances == map[]
    modifies trie, trie.store
    ensures trie.Valid() && InSync(enc, trie.flat, b.(balances := m))
  {
    var todo := m.Keys;
    ghost var done: map<Digest, nat> := map[];
    while todo != {}
      invariant todo <= m.Keys
      invariant forall a :: a in done <==> a in m && a !in todo
      invariant forall a :: a in done ==> done[a] == m[a]
      invariant trie.Valid() && InSync(enc, trie.flat, b.(balances := done))
    {
      var a :| a in todo;
      SyncBalance(enc, trie.flat, b.(balances := done), a, Some(m[a]));
      if m[a] != 0 {
        trie.SetLeaf(DOMAIN_BALANCE, a, BalanceBytes(m[a]));
      }
      done := done[a := m[a]];
      todo := todo - {a};
    }
    assert done == m;
  }

  method InsertKeys(trie: Trie, enc: SlotCodec, m: map<Digest, Bytes1>, ghost b: Plain)
    requires trie.Valid() && InSync(enc, trie.flat, b) && b.keys == map[]
    modifies trie, trie.store
    ensures trie.Valid() && InSync(enc, trie.flat, b.(keys := m))
  {
    var todo := m.Keys;
    ghost var done: map<Digest, Bytes1> := map[];
    while todo != {}
      invariant todo <= m.Keys
      invariant forall a :: a in done <==> a in m && a !in todo
      invariant forall a :: a in done ==> done[a] == m[a]
      invariant trie.Valid() && InSync(enc, trie.flat, b.(keys := done))
    {
      var a :| a in todo;
      SyncKey(enc, trie.flat, b.(keys := done), a, Some(m[a]));
      trie.SetLeaf(DOMAIN_KEY, a, m[a]);
      done := done[a := m[a]];
      todo := todo - {a};
    }
    assert done == m;
  }

  method InsertContracts(trie: Trie, enc: SlotCodec, m: map<Digest, Slot>, ghost b: Plain)
    requires trie.Valid() && InSync(enc, trie.flat, b) && b.contracts == map[]
    modifies trie, trie.store
    ensures trie.Valid() && InSync(enc, trie.flat, b.(contracts := m))
  {
    var todo := m.Keys;
    ghost var done: map<Digest, Slot> := map[];
    while todo != {}
      invariant todo <= m.Keys
      invariant forall a :: a in done <==> a in m && a !in todo
      invariant forall a :: a in done ==> done[a] == m[a]
      invariant trie.Valid() && InSync(enc, trie.flat, b.(contracts := done))
    {
      var a :| a in todo;
      SyncContract(enc, trie.flat, b.(contracts := done), a, Some(m[a]));
      trie.SetLeaf(DOMAIN_CONTRACT, a, enc(m[a]));
      done := done[a := m[a]];
      todo := todo - {a};
    }
    assert done == m;
  }

  /** InSync, carried unopened through a loop. */
  ghost predicate Matches(enc: SlotCodec, flat: Flat, b: Plain) {
    forall seal {:trigger Opened(STEP, seal)} :: Opened(STEP, seal) ==> InSync(enc, flat, b)
  }

  method InsertCommit(trie: Trie, enc: SlotCodec, x: CommitReveal.Key, from: Digest, ghost b: Plain)
    requires x.0 < HEIGHTS && trie.Valid() && Matches(enc, trie.flat, b)
    modifies trie, trie.store
    ensures trie.Valid() && Matches(enc, trie.flat, b.(commits := b.commits[x := from]))
  {
    assert Opened(STEP, true);
    SyncCommit(enc, trie.flat, b, x, Some(from));
    trie.SetLeaf(DOMAIN_COMMIT, CommitKey(x).key, from);
  }

  /** The entries of m that are no longer to be done. */
  ghost function Without(m: map<CommitReveal.Key, Digest>, todo: set<CommitReveal.Key>): map<CommitReveal.Key, Digest> {
    map x | x in m && x !in todo :: m[x]
  }

  lemma WithoutStep(m: map<CommitReveal.Key, Digest>, todo: set<CommitReveal.Key>, x: CommitReveal.Key)
    requires x in todo && todo <= m.Keys
    ensures Without(m, todo - {x}) == Without(m, todo)[x := m[x]]
  {}

  lemma NoneYet(enc: SlotCodec, flat: Flat, b: Plain, m: map<CommitReveal.Key, Digest>)
    requires InSync(enc, flat, b) && b.commits == map[]
    ensures Matches(enc, flat, b.(commits := Without(m, m.Keys)))
  {
    assert Without(m, m.Keys) == map[];
  }

  lemma AllDone(enc: SlotCodec, flat: Flat, b: Plain, m: map<CommitReveal.Key, Digest>)
    requires Matches(enc, flat, b.(commits := Without(m, {})))
    ensures InSync(enc, flat, b.(commits := m))
  {
    assert Opened(STEP, true);
    assert Without(m, {}) == m;
  }

  method InsertCommits(trie: Trie, enc: SlotCodec, m: map<CommitReveal.Key, Digest>, ghost b: Plain)
    requires trie.Valid() && InSync(enc, trie.flat, b) && b.commits == map[] && forall x :: x in m ==> x.0 < HEIGHTS
    modifies trie, trie.store
    ensures trie.Valid() && InSync(enc, trie.flat, b.(commits := m))
  {
    NoneYet(enc, trie.flat, b, m);
    InsertEach(trie, enc, m, b);
    AllDone(enc, trie.flat, b, m);
  }

  method InsertEach(trie: Trie, enc: SlotCodec, m: map<CommitReveal.Key, Digest>, ghost b: Plain)
    requires trie.Valid() && Matches(enc, trie.flat, b.(commits := Without(m, m.Keys)))
    requires forall x :: x in m ==> x.0 < HEIGHTS
    modifies trie, trie.store
    ensures trie.Valid() && Matches(enc, trie.flat, b.(commits := Without(m, {})))
  {
    var todo := m.Keys;
    while todo != {}
      invariant todo <= m.Keys
      invariant trie.Valid() && Matches(enc, trie.flat, b.(commits := Without(m, todo)))
    {
      var x :| x in todo;
      WithoutStep(m, todo, x);
      InsertCommit(trie, enc, x, m[x], b.(commits := Without(m, todo)));
      todo := todo - {x};
    }
  }

  /** The beacon is a single entry. */
  lemma OneKey(m: map<(), Bytes1>)
    ensures m == if () in m then map[() := m[()]] else map[]
  {
    forall u: () | u in m ensures u == () {
      match u case () =>
    }
  }

  method InsertBeacon(trie: Trie, enc: SlotCodec, m: map<(), Bytes1>, ghost b: Plain)
    requires trie.Valid() && InSync(enc, trie.flat, b) && b.beacon == map[]
    modifies trie, trie.store
    ensures trie.Valid() && InSync(enc, trie.flat, b.(beacon := m))
  {
    OneKey(m);
    if () in m {
      SyncBeacon(enc, trie.flat, b, Some(m[()]));
      trie.SetLeaf(DOMAIN_BEACON, BeaconKey(()).key, m[()]);
    }
  }

  method Rebuild(trie: Trie, enc: SlotCodec, b: Plain)
    requires forall x :: x in b.commits ==> x.0 < HEIGHTS
    modifies trie, trie.store
    ensures trie.Valid() && InSync(enc, trie.flat, b)
  {
    trie.Clear();
    SyncEmpty(enc);
    ghost var done := Plain(map[], map[], map[], map[], map[]);
    InsertBalances(trie, enc, b.balances, done);
    done := done.(balances := b.balances);
    InsertKeys(trie, enc, b.keys, done);
    done := done.(keys := b.keys);
    InsertContracts(trie, enc, b.contracts, done);
    done := done.(contracts := b.contracts);
    InsertCommits(trie, enc, b.commits, done);
    done := done.(commits := b.commits);
    InsertBeacon(trie, enc, b.beacon, done);
  }
}
