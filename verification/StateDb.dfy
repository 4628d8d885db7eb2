/** The archive node's state (ngstate): the write helpers, the commitment store, the per-height undo and
    the state commitment they keep in step. */
module StateDb {
  import opened Basics
  import opened Domains
  import opened KeyOrder
  import opened SparseMerkle
  import opened StateTrie
  import opened Committed
  import opened ArchiveBucket
  import opened Contents
  import opened LeafScope
  import NodeStore
  import CommitReveal
  import Beacon

  /** The committed entries after mirroring a list of restored writes. */
  ghost function FlatAll<K, V>(flat: Flat, leaf: Write<K, V> -> (LeafKey, Bytes), ws: seq<Write<K, V>>): (r: Flat) {
    if ws == [] then flat
    else var (k, v) := leaf(ws[|ws| - 1]);
         Assign(FlatAll(flat, leaf, ws[..|ws| - 1]), k, NonEmpty(v))
  }

  ghost function WriteKeys<K, V>(leaf: Write<K, V> -> (LeafKey, Bytes), ws: seq<Write<K, V>>): Keys {
    set i | 0 <= i < |ws| :: leaf(ws[i]).0
  }

  method MirrorAll<K, V>(trie: Trie, leaf: Write<K, V> -> (LeafKey, Bytes), ws: seq<Write<K, V>>)
    requires trie.Valid()
    modifies trie, trie.store
    ensures trie.Valid()
    ensures trie.flat == FlatAll(old(trie.flat), leaf, ws)
    ensures trie.touched <= old(trie.touched) + WriteKeys(leaf, ws)
  {
    var i := 0;
    while i < |ws|
      invariant 0 <= i <= |ws|
      invariant trie.Valid()
      invariant trie.flat == FlatAll(old(trie.flat), leaf, ws[..i])
      invariant trie.touched <= old(trie.touched) + WriteKeys(leaf, ws)
    {
      var (k, v) := leaf(ws[i]);
      trie.SetLeaf(k.tag, k.key, v);
      assert ws[..i + 1][..i] == ws[..i];
      assert LeafKey(k.tag, k.key) == k;
      i := i + 1;
    }
    assert ws[..|ws|] == ws;
  }

  /** A list of restored pre-images overwrites the state into the reverted state. */
  lemma {:induction false} OverwrittenAt<K(!new), V>(m: map<K, V>, ws: seq<Write<K, V>>, k: K)
    ensures (forall w :: w in ws ==> w.key != k) ==> Lookup(Overwritten(m, ws), k) == Lookup(m, k)
    ensures forall v: Option<V> :: Write(k, v) in ws && (forall w :: w in ws && w.key == k ==> w.value == v) ==>
              Lookup(Overwritten(m, ws), k) == v
  {
    if ws != [] {
      var front, w := ws[..|ws| - 1], ws[|ws| - 1];
      OverwrittenAt(m, front, k);
      forall v: Option<V> | Write(k, v) in ws && (forall w :: w in ws && w.key == k ==> w.value == v)
        ensures Lookup(Overwritten(m, ws), k) == v
      {
        if w.key == k {
          assert w in ws;
        } else {
          assert Write(k, v) in front;
        }
      }
    }
  }

  lemma RestoredOverwrites<K(!new), V(!new)>(d: Domain<K, V>, h: nat, ws: seq<Write<K, V>>)
    requires Restores(d, h, ws)
    ensures Overwritten(d.state, ws) == Reverted(d, h).state
  {
    forall k ensures Lookup(Overwritten(d.state, ws), k) == Restored(d, h, k) {
      OverwrittenAt(d.state, ws, k);
      if (h, k) in d.cs {
        assert Write(k, d.cs[(h, k)]) in ws;
      }
    }
    SameLookups(Overwritten(d.state, ws), Reverted(d, h).state);
  }

  /** The restored writes are those of recorded rows. */
  lemma BalancesScope(d: Domain<Digest, nat>, h: nat, ws: seq<Write<Digest, nat>>)
    requires Restores(d, h, ws)
    ensures WriteKeys(BalanceWrite, ws) <= BalanceRows(d)
  {
    forall i | 0 <= i < |ws| ensures BalanceWrite(ws[i]).0 in BalanceRows(d) {
      assert ws[i] in ws && (h, ws[i].key) in d.cs;
    }
  }

  lemma KeysScope(d: Domain<Digest, Bytes1>, h: nat, ws: seq<Write<Digest, Bytes1>>)
    requires Restores(d, h, ws)
    ensures WriteKeys(KeyWrite, ws) <= RegistryRows(d)
  {
    forall i | 0 <= i < |ws| ensures KeyWrite(ws[i]).0 in RegistryRows(d) {
      assert ws[i] in ws && (h, ws[i].key) in d.cs;
    }
  }

  lemma ContractsScope(d: Domain<Digest, Slot>, h: nat, ws: seq<Write<Digest, Slot>>, enc: SlotCodec)
    requires Restores(d, h, ws)
    ensures WriteKeys(w => ContractWrite(enc, w), ws) <= ContractRows(d)
  {
    forall i | 0 <= i < |ws| ensures ContractWrite(enc, ws[i]).0 in ContractRows(d) {
      assert ws[i] in ws && (h, ws[i].key) in d.cs;
    }
  }

  lemma BeaconScope(d: Domain<(), Bytes1>, h: nat, ws: seq<Write<(), Bytes1>>)
    requires Restores(d, h, ws)
    ensures WriteKeys(BeaconWrite, ws) <= BeaconRows(d)
  {
    forall i | 0 <= i < |ws| ensures BeaconWrite(ws[i]).0 in BeaconRows(d) {
      assert ws[i] in ws && (h, ws[i].key) in d.cs;
    }
  }

  function BalanceWrite(w: Write<Digest, nat>): (LeafKey, Bytes) { (BalanceKey(w.key), BalanceLeaf(w.value)) }
  function KeyWrite(w: Write<Digest, Bytes1>): (LeafKey, Bytes) { (RegistryKey(w.key), RawLeaf(w.value)) }
  function ContractWrite(enc: SlotCodec, w: Write<Digest, Slot>): (LeafKey, Bytes) { (ContractKey(w.key),
                         SlotLeaf(enc, w.value)) }
  function BeaconWrite(w: Write<(), Bytes1>): (LeafKey, Bytes) { (BeaconKey(w.key), RawLeaf(w.value)) }

  lemma {:induction false} SyncBalances(enc: SlotCodec, flat: Flat, b: Plain, ws: seq<Write<Digest, nat>>)
    requires InSync(enc, flat, b)
    ensures InSync(enc, FlatAll(flat, BalanceWrite, ws), b.(balances := Overwritten(b.balances, ws)))
  {
    if ws != [] {
      var front, w := ws[..|ws| - 1], ws[|ws| - 1];
      SyncBalances(enc, flat, b, front);
      SyncBalance(enc, FlatAll(flat, BalanceWrite, front), b.(balances := Overwritten(b.balances, front)),
                  w.key, w.value);
    }
  }

  lemma {:induction false} SyncKeys(enc: SlotCodec, flat: Flat, b: Plain, ws: seq<Write<Digest, Bytes1>>)
    requires InSync(enc, flat, b)
    ensures InSync(enc, FlatAll(flat, KeyWrite, ws), b.(keys := Overwritten(b.keys, ws)))
  {
    if ws != [] {
      var front, w := ws[..|ws| - 1], ws[|ws| - 1];
      SyncKeys(enc, flat, b, front);
      SyncKey(enc, FlatAll(flat, KeyWrite, front), b.(keys := Overwritten(b.keys, front)), w.key, w.value);
    }
  }

  lemma {:induction false} SyncContracts(enc: SlotCodec, flat: Flat, b: Plain, ws: seq<Write<Digest, Slot>>)
    requires InSync(enc, flat, b)
    ensures InSync(enc, FlatAll(flat, w => ContractWrite(enc, w), ws), b.(contracts := Overwritten(b.contracts, ws)))
  {
    if ws != [] {
      var front, w := ws[..|ws| - 1], ws[|ws| - 1];
      SyncContracts(enc, flat, b, front);
      SyncContract(enc, FlatAll(flat, w => ContractWrite(enc, w), front),
                   b.(contracts := Overwritten(b.contracts, front)), w.key, w.value);
    }
  }

  lemma {:induction false} SyncBeacons(enc: SlotCodec, flat: Flat, b: Plain, ws: seq<Write<(), Bytes1>>)
    requires InSync(enc, flat, b)
    ensures InSync(enc, FlatAll(flat, BeaconWrite, ws), b.(beacon := Overwritten(b.beacon, ws)))
  {
    if ws != [] {
      var front, w := ws[..|ws| - 1], ws[|ws| - 1];
      SyncBeacons(enc, flat, b, front);
      assert w.key == ();
      SyncBeacon(enc, FlatAll(flat, BeaconWrite, front), b.(beacon := Overwritten(b.beacon, front)), w.value);
    }
  }

  /** The recorder's height is a uint64; a nil recorder records nothing. */
  predicate Recorder(rec: Option<nat>) {
    rec.Some? ==> rec.value < HEIGHTS
  }

  /** What a transaction rolls back to, and the ghost content of the trie that goes with it. */
  datatype Saved = Saved(buckets: Buckets, code: Code, commits: CommitReveal.Store, nodes: map<Bytes, Digest>)

  datatype Mirror = Mirror(leaves: Leaves, flat: Flat, touched: set<LeafKey>)

  ghost predicate Sizes<K, V>(d: Domain<K, V>, indexed: bool) {
    d.indexed == indexed && (indexed || d.hist == {}) && forall x :: x in d.cs ==> x.0 < HEIGHTS
  }

  class State {
    const H: Hasher
    const enc: SlotCodec
    const bal: Bucket<Digest, nat>
    const con: Bucket<Digest, Slot>
    const key: Bucket<Digest, Bytes1>
    const bea: Bucket<(), Bytes1>
    const trie: Trie
    var pending: map<CommitReveal.Key, Digest>
    var spent: map<CommitReveal.Key, (nat, Digest)>
    var code: map<Digest, Module>

    ghost function Commits(): CommitReveal.Store
      reads this
    {
      CommitReveal.Store(pending, spent)
    }

    ghost function Archive(): Buckets
      reads bal, con, key, bea
    {
      Buckets(bal.View(), con.View(), key.View(), bea.View())
    }

    ghost function All(): Content
      reads this, bal, con, key, bea
    {
      Content(Archive(), code, Commits())
    }

    /** The committed buckets. */
    ghost function Now(): Plain
      reads this, bal, con, key, bea
    {
      Plain(bal.state, key.state, con.state, pending, bea.state)
    }

    ghost predicate Apart()
      reads this
    {
      && bal as object !in {con, key, bea, trie, trie.store, this}
      && con as object !in {key, bea, trie, trie.store, this}
      && key as object !in {bea, trie, trie.store, this}
      && bea as object !in {trie, trie.store, this}
      && trie as object !in {trie.store, this}
      && trie.store as object != this
    }

    ghost predicate Valid()
      reads this, bal, con, key, bea, trie, trie.store
    {
      && Apart()
      && bal.Valid() && con.Valid() && key.Valid() && bea.Valid()
      && bal.indexed && con.indexed && !key.indexed && !bea.indexed
      && trie.Valid() && trie.store.H == H
      && (forall x :: x in pending ==> x.0 < HEIGHTS)
      && (forall y :: y in spent ==> spent[y].0 < HEIGHTS)
    }

    /** The commitment has not drifted: the mirrored entries are the committed view of the buckets. */
    ghost predicate Synced()
      reads this, bal, con, key, bea, trie
    {
      InSync(enc, trie.flat, Now())
    }

    constructor (H: Hasher, enc: SlotCodec)
      ensures Valid() && Synced()
      ensures bal.View() == Domain(true, map[], map[], {}) && con.View() == Domain(true, map[], map[], {})
      ensures key.View() == Domain(false, map[], map[], {}) && bea.View() == Domain(false, map[], map[], {})
      ensures Commits() == CommitReveal.Store(map[], map[]) && code == map[] && trie.touched == {}
      ensures fresh(bal) && fresh(con) && fresh(key) && fresh(bea) && fresh(trie) && fresh(trie.store)
    {
      this.H, this.enc := H, enc;
      bal := new Bucket(true);
      con := new Bucket(true);
      key := new Bucket(false);
      bea := new Bucket(false);
      trie := new Trie(H);
      pending, spent, code := map[], map[], map[];
      new;
      SyncEmpty(enc);
    }

    // ---- write helpers ----

    /** setBalance */
    method SetBalance(rec: Option<nat>, a: Digest, n: nat)
      requires Valid() && Recorder(rec)
      modifies bal, trie, trie.store
      ensures !old(Synced()) || Synced()
      ensures Valid()
      ensures rec.Some? ==> bal.View() == Put(old(bal.View()), rec.value, Write(a, Some(n)))
      ensures bal.state == old(bal.state)[a := n]
      ensures trie.touched <= old(trie.touched) + {BalanceKey(a)}
    {
      if Synced() {
        SyncBalance(enc, trie.flat, Now(), a, Some(n));
      }
      bal.Set(rec, a, Some(n));
      trie.SetLeaf(DOMAIN_BALANCE, a, BalanceBytes(n));
    }

    /** registerPubKey: the registry is append-only. */
    method RegisterKey(rec: Option<nat>, a: Digest, entry: Bytes1)
      requires Valid() && Recorder(rec)
      modifies key, trie, trie.store
      ensures !old(Synced()) || Synced()
      ensures Valid()
      ensures a in old(key.state) ==> key.View() == old(key.View())
      ensures a !in old(key.state) && rec.Some? ==> key.View() == Put(old(key.View()), rec.value, Write(a, Some(entry)))
      ensures key.state == if a in old(key.state) then old(key.state) else old(key.state)[a := entry]
      ensures trie.touched <= old(trie.touched) + {RegistryKey(a)}
    {
      if a in key.state {
        return;
      }
      if Synced() {
        SyncKey(enc, trie.flat, Now(), a, Some(entry));
      }
      key.Set(rec, a, Some(entry));
      trie.SetLeaf(DOMAIN_KEY, a, entry);
    }

    /** setBeacon */
    method SetBeacon(rec: Option<nat>, seed: Bytes1)
      requires Valid() && Recorder(rec)
      modifies bea, trie, trie.store
      ensures !old(Synced()) || Synced()
      ensures Valid()
      ensures rec.Some? ==> bea.View() == Put(old(bea.View()), rec.value, Write((), Some(seed)))
      ensures bea.state == old(bea.state)[() := seed]
      ensures trie.touched <= old(trie.touched) + {BeaconKey(())}
    {
      if Synced() {
        SyncBeacon(enc, trie.flat, Now(), Some(seed));
      }
      bea.Set(rec, (), Some(seed));
      trie.SetLeaf(DOMAIN_BEACON, BEACON_KEY, seed);
    }

    /** updateBeacon: once per block, after its txs; nothing before the fork or at the genesis. */
    method UpdateBeacon(rec: Option<nat>, active: bool, height: KeyOrder.Height, prevHash: Digest, salts: seq<Bytes>)
      requires Valid() && Recorder(rec)
      modifies bea, trie, trie.store
      ensures !old(Synced()) || Synced()
      ensures Valid()
      ensures !active || height == 0 ==> bea.View() == old(bea.View())
      ensures active && height > 0 ==>
                bea.state == old(bea.state)[() := Beacon.Seed(H, SeedOf(old(bea.state)), prevHash, salts, height)]
      ensures active && height > 0 && rec.Some? ==>
        bea.View() == Put(old(bea.View()), rec.value,
                          Write((), Some(Beacon.Seed(H, SeedOf(old(bea.state)), prevHash, salts, height))))
      ensures trie.touched <= old(trie.touched) + if active then {BeaconKey(())} else {}
    {
      if !active || height == 0 {
        return;
      }
      var prev := SeedOf(bea.state);
      var acc := Beacon.Fold(salts);
      var seed := H(Beacon.Preimage(prev, prevHash, H(acc), height));
      SetBeacon(rec, seed);
    }

    // ---- contracts and the shared code bucket ----

    method RetainCode(hash: Digest, bytes: Bytes)
      modifies this`code
      ensures code == Retained(old(code), hash, bytes)
    {
      if hash !in code {
        code := code[hash := Module(1, bytes)];
      } else {
        code := code[hash := Module(code[hash].refs + 1, code[hash].bytes)];
      }
    }

    /** releaseCode: on an archive the bytes stay even at refcount zero. */
    method ReleaseCode(hash: Digest, keepForHistory: bool)
      modifies this`code
      ensures code == Released(old(code), hash, keepForHistory)
    {
      if hash !in code {
        return;
      }
      var refs := code[hash].refs;
      if refs <= 1 && !keepForHistory {
        code := code - {hash};
        return;
      }
      code := code[hash := Module(if refs > 0 then refs - 1 else 0, code[hash].bytes)];
    }

    /** Store or delete the slot and mirror its leaf. */
    method PutSlot(rec: Option<nat>, owner: Digest, v: Option<Slot>)
      requires Valid() && Recorder(rec)
      modifies con, trie, trie.store
      ensures !old(Synced()) || Synced()
      ensures Valid()
      ensures con.View() == if rec.Some? then Put(old(con.View()), rec.value, Write(owner, v))
                            else old(con.View()).(state := Assign(old(con.state), owner, v))
      ensures trie.touched <= old(trie.touched) + {ContractKey(owner)}
    {
      if Synced() {
        SyncContract(enc, trie.flat, Now(), owner, v);
      }
      con.Set(rec, owner, v);
      trie.SetLeaf(DOMAIN_CONTRACT, owner, SlotLeaf(enc, v));
    }

    /** setContract: reconcile the code registry, store the slot, mirror its leaf. */
    method SetContract(rec: Option<nat>, owner: Digest, source: Bytes, context: Bytes)
      requires Valid() && Recorder(rec)
      modifies con, trie, trie.store, this`code
      ensures !old(Synced()) || Synced()
      ensures Valid()
      ensures rec.Some? ==> con.View() == Put(old(con.View()), rec.value, Write(owner, Some(Slot(H(source), context))))
      ensures con.state == old(con.state)[owner := Slot(H(source), context)]
      ensures code == Reconciled(old(code), Lookup(old(con.state), owner), H(source), source, rec.Some?)
      ensures trie.touched <= old(trie.touched) + {ContractKey(owner)}
    {
      var newHash := H(source);
      ReconcileCode(rec.Some?, owner, newHash, source);
      PutSlot(rec, owner, Some(Slot(newHash, context)));
    }

    /** The code-registry part of setContract: release a replaced module, retain the new one. */
    method ReconcileCode(archive: bool, owner: Digest, newHash: Digest, source: Bytes)
      modifies this`code
      ensures code == Reconciled(old(code), Lookup(con.state, owner), newHash, source, archive)
    {
      if owner in con.state && con.state[owner].codeHash == newHash {
        return; // unchanged code: keep the refcount as-is
      }
      if owner in con.state {
        ReleaseCode(con.state[owner].codeHash, archive);
      }
      RetainCode(newHash, source);
    }

    /** delContract */
    method DelContract(rec: Option<nat>, a: Digest)
      requires Valid() && Recorder(rec)
      modifies con, trie, trie.store, this`code
      ensures !old(Synced()) || Synced()
      ensures Valid()
      ensures rec.Some? ==> con.View() == Put(old(con.View()), rec.value, Write(a, None))
      ensures con.state == old(con.state) - {a}
      ensures code == Dropped(old(code), Lookup(old(con.state), a), rec.Some?)
      ensures trie.touched <= old(trie.touched) + {ContractKey(a)}
    {
      if a in con.state {
        ReleaseCode(con.state[a].codeHash, rec.Some?);
      }
      PutSlot(rec, a, None);
    }

    // ---- commit-reveal ----

    /** findCommit, and commitFromPending one block further back: the ascending height scan. */
    method ScanCommits(from: Digest, hash: Digest, low: nat, high: nat) returns (r: Option<nat>)
      ensures r == CommitReveal.FindIn(Commits(), from, hash, low, high)
    {
      var h := low;
      while h < high
        invariant low <= h
        invariant CommitReveal.FindIn(Commits(), from, hash, low, high)
                    == CommitReveal.FindIn(Commits(), from, hash, h, high)
      {
        if (h, hash) in pending && pending[(h, hash)] == from {
          return Some(h);
        }
        h := h + 1;
      }
      r := None;
    }

    /** Put or delete one pending commitment, with its leaf. */
    method PutPending(x: CommitReveal.Key, v: Option<Digest>)
      requires Valid() && x.0 < HEIGHTS
      modifies this`pending, trie, trie.store
      ensures !old(Synced()) || Synced()
      ensures Valid() && pending == Assign(old(pending), x, v)
      ensures trie.touched <= old(trie.touched) + {CommitKey(x)}
    {
      if Synced() {
        SyncCommit(enc, trie.flat, Now(), x, v);
      }
      pending := Assign(pending, x, v);
      trie.SetLeaf(DOMAIN_COMMIT, CommitKey(x).key, FromLeaf(v));
    }

    /** handleCommits for one commitment: refused when the committer's own hash is still pending or the fee is
        not covered; otherwise charged, then recorded. */
    method HandleCommit(rec: Option<nat>, h: nat, x: Charged) returns (ok: bool)
      requires Valid() && Recorder(rec) && h < HEIGHTS
      modifies this`pending, bal, trie, trie.store
      ensures !old(Synced()) || Synced()
      ensures Valid()
      ensures ok <==> CommitReveal.Commit(old(Commits()), h, x.commit).Some? && Paid(old(Archive()), h, x).Some?
      ensures ok ==> CommitReveal.Commit(old(Commits()), h, x.commit) == Some(Commits())
      ensures ok && rec == Some(h) ==> Paid(old(Archive()), h, x) == Some(Archive())
      ensures !ok ==> Commits() == old(Commits()) && Archive() == old(Archive())
      ensures trie.touched <= old(trie.touched) + CommitKeys(h, x)
    {
      var left := CheckCommit(h, x);
      ok := left.Some?;
      if ok {
        RecordCommit(rec, h, x.commit, left.value);
      }
    }

    /** What the fee leaves the committer; None on a pending duplicate or an unaffordable fee. */
    method CheckCommit(h: nat, x: Charged) returns (left: Option<nat>)
      ensures left.Some? <==> CommitReveal.Commit(Commits(), h, x.commit).Some? && Paid(Archive(), h, x).Some?
      ensures left.Some? ==> Paid(Archive(), h, x) == Some(Charge(Archive(), h, x.commit.from, left.value))
    {
      var from, hash := x.commit.from, x.commit.hash;
      var seen := ScanCommits(from, hash, CommitReveal.Low(h, CommitReveal.WINDOW + 1), h);
      if seen.Some? {
        return None;
      }
      var balance := if from in bal.state then bal.state[from] else 0;
      if balance < x.fee {
        return None;
      }
      left := Some(balance - x.fee);
    }

    /** Charge the committer, leaving them the rest, and record the commitment. */
    method RecordCommit(rec: Option<nat>, h: nat, e: CommitReveal.Entry, left: nat)
      requires Valid() && Recorder(rec) && h < HEIGHTS
      modifies this`pending, bal, trie, trie.store
      ensures !old(Synced()) || Synced()
      ensures Valid()
      ensures Commits() == old(Commits()).(pending := old(pending)[(h, e.hash) := e.from])
      ensures rec == Some(h) ==> Archive() == Charge(old(Archive()), h, e.from, left)
      ensures trie.touched <= old(trie.touched) + {BalanceKey(e.from), CommitKey((h, e.hash))}
    {
      SetBalance(rec, e.from, left);
      PutPending((h, e.hash), Some(e.from));
    }

    /** consumeReveal: journal the consumption, then delete the commitment and its leaf. */
    method ConsumeReveal(h: nat, e: CommitReveal.Entry) returns (ok: bool)
      requires Valid()
      modifies this`pending, this`spent, trie, trie.store
      ensures !old(Synced()) || Synced()
      ensures Valid()
      ensures ok <==> CommitReveal.Reveal(old(Commits()), h, e).Some?
      ensures Commits() == if ok then CommitReveal.Reveal(old(Commits()), h, e).value else old(Commits())
      ensures trie.touched <= old(trie.touched) + PendingKeys(old(pending))
    {
      var found := ScanCommits(e.from, e.hash, CommitReveal.Low(h, CommitReveal.WINDOW), h);
      if found.None? {
        return false;
      }
      var r := found.value;
      assert (r, e.hash) in pending && CommitKey((r, e.hash)) in PendingKeys(pending);
      spent := spent[(h, e.hash) := (r, e.from)];
      PutPending((r, e.hash), None);
      ok := true;
    }

    /** The delete loops over the commitment bucket: each dropped key drops its leaf. */
    method DropPending(victims: set<CommitReveal.Key>)
      requires Valid() && victims <= pending.Keys
      modifies this`pending, trie, trie.store
      ensures !old(Synced()) || Synced()
      ensures Valid() && pending == old(pending) - victims
      ensures trie.touched <= old(trie.touched) + PendingKeys(old(pending))
    {
      var todo := victims;
      while todo != {}
        invariant todo <= victims
        invariant Valid()
        invariant !old(Synced()) || Synced()
        invariant pending == old(pending) - (victims - todo)
        invariant trie.touched <= old(trie.touched) + PendingKeys(old(pending))
      {
        var x :| x in todo;
        assert x in pending && CommitKey(x) in PendingKeys(old(pending));
        PutPending(x, None);
        todo := todo - {x};
      }
    }

    /** pruneCommits */
    method PruneCommits(tip: nat)
      requires Valid()
      modifies this`pending, this`spent, trie, trie.store
      ensures !old(Synced()) || Synced()
      ensures Valid() && Commits() == CommitReveal.Pruned(old(Commits()), tip)
      ensures trie.touched <= old(trie.touched) + PendingKeys(old(pending))
    {
      ghost var was := Commits();
      if tip <= CommitReveal.WINDOW {
        CutOff(was, tip, 0, Commits());
        return;
      }
      var cutoff := tip - CommitReveal.WINDOW;
      DropPending(set x | x in pending && x.0 < cutoff);
      spent := map y | y in spent && !(y.0 < cutoff) :: spent[y];
      CutOff(was, tip, cutoff, Commits());
    }

    // ---- transactions ----

    /** The stored bytes a bbolt transaction would roll back to. */
    method Save() returns (r: Saved)
      requires Valid()
      ensures r == Saved(Archive(), code, Commits(), trie.store.nodes)
      ensures Restorable(r, Mirror(trie.leaves, trie.flat, trie.touched))
    {
      r := Saved(Buckets(Domain(bal.indexed, bal.state, bal.cs, bal.hist),
                         Domain(con.indexed, con.state, con.cs, con.hist),
                         Domain(key.indexed, key.state, key.cs, key.hist),
                         Domain(bea.indexed, bea.state, bea.cs, bea.hist)),
                 code, CommitReveal.Store(pending, spent), trie.store.nodes);
    }

    ghost predicate Restorable(r: Saved, m: Mirror) {
      && Sizes(r.buckets.bal, true) && Sizes(r.buckets.con, true)
      && Sizes(r.buckets.key, false) && Sizes(r.buckets.bea, false)
      && NodeStore.Commits(H, r.nodes, m.leaves) && Faithful(H, m.leaves, m.flat, m.touched)
      && (forall x :: x in r.commits.pending ==> x.0 < HEIGHTS)
      && (forall y :: y in r.commits.spent ==> r.commits.spent[y].0 < HEIGHTS)
    }

    /** Rolling a failed transaction back. */
    method Restore(r: Saved, ghost m: Mirror)
      requires Valid() && Restorable(r, m)
      modifies this`pending, this`spent, this`code, bal, con, key, bea, trie, trie.store
      ensures Valid()
      ensures All() == Content(r.buckets, r.code, r.commits)
      ensures trie.flat == m.flat && trie.touched == m.touched && trie.leaves == m.leaves
    {
      bal.Load(r.buckets.bal);
      con.Load(r.buckets.con);
      key.Load(r.buckets.key);
      bea.Load(r.buckets.bea);
      pending, spent, code := r.commits.pending, r.commits.spent, r.code;
      trie.Load(r.nodes, m.leaves, m.flat, m.touched);
    }

    // ---- the state commitment ----

    /** StateRoot, as CheckStateRoot compares it. */
    method StateRoot() returns (root: Digest)
      requires Valid()
      ensures root == TreeRoot(H, trie.leaves)
    {
      root := trie.Root();
    }

    /** RebuildTrie: clear the node bucket and re-insert every live entry of the committed buckets. The
        incremental commitment had not drifted: the root is unchanged unless leaf paths collide. */
    method RebuildTrie()
      requires Valid()
      modifies trie, trie.store
      ensures Valid() && Synced()
      ensures old(Synced()) && NoCollision(H, old(trie.touched) + trie.touched) ==>
                TreeRoot(H, trie.leaves) == TreeRoot(H, old(trie.leaves))
    {
      Rebuild(trie, enc, Plain(bal.state, key.state, con.state, pending, bea.state));
      if old(Synced()) {
        InSyncFunctional(enc, old(trie.flat), trie.flat, Now());
        if NoCollision(H, old(trie.touched) + trie.touched) {
          SameRoot(H, old(trie.leaves), trie.leaves, trie.flat, old(trie.touched), trie.touched);
        }
      }
    }

    // ---- reorg unwind ----

    method RevertBalances(h: Height)
      requires Valid()
      modifies bal, trie, trie.store
      ensures Valid()
      ensures !old(Synced()) || Synced()
      ensures bal.View() == Reverted(old(bal.View()), h)
      ensures trie.touched <= old(trie.touched) + BalanceRows(old(bal.View()))
    {
      var rows := ScanHeight(bal.cs, h);
      var restored := bal.Revert(h, rows);
      RestoredOverwrites(old(bal.View()), h, restored);
      BalancesScope(old(bal.View()), h, restored);
      if old(Synced()) {
        SyncBalances(enc, trie.flat, old(Now()), restored);
      }
      MirrorAll(trie, BalanceWrite, restored);
    }

    method RevertContracts(h: Height)
      requires Valid()
      modifies con, trie, trie.store
      ensures Valid()
      ensures !old(Synced()) || Synced()
      ensures con.View() == Reverted(old(con.View()), h)
      ensures trie.touched <= old(trie.touched) + ContractRows(old(con.View()))
    {
      var rows := ScanHeight(con.cs, h);
      var restored := con.Revert(h, rows);
      RestoredOverwrites(old(con.View()), h, restored);
      ContractsScope(old(con.View()), h, restored, enc);
      if old(Synced()) {
        SyncContracts(enc, trie.flat, old(Now()), restored);
      }
      MirrorAll(trie, (w: Write<Digest, Slot>) => ContractWrite(enc, w), restored);
    }

    method RevertKeys(h: Height)
      requires Valid()
      modifies key, trie, trie.store
      ensures Valid()
      ensures !old(Synced()) || Synced()
      ensures key.View() == Reverted(old(key.View()), h)
      ensures trie.touched <= old(trie.touched) + RegistryRows(old(key.View()))
    {
      var rows := ScanHeight(key.cs, h);
      var restored := key.Revert(h, rows);
      RestoredOverwrites(old(key.View()), h, restored);
      KeysScope(old(key.View()), h, restored);
      if old(Synced()) {
        SyncKeys(enc, trie.flat, old(Now()), restored);
      }
      MirrorAll(trie, KeyWrite, restored);
    }

    /** revertBeacon */
    method RevertBeacon(h: nat)
      requires Valid()
      modifies bea, trie, trie.store
      ensures Valid()
      ensures !old(Synced()) || Synced()
      ensures bea.View() == Reverted(old(bea.View()), h)
      ensures trie.touched <= old(trie.touched) + BeaconRows(old(bea.View()))
    {
      var rows := if (h, ()) in bea.cs then [()] else [];
      forall k ensures k in rows <==> (h, k) in bea.cs {
        assert k == ();
      }
      var restored := bea.Revert(h, rows);
      RestoredOverwrites(old(bea.View()), h, restored);
      BeaconScope(old(bea.View()), h, restored);
      if old(Synced()) {
        SyncBeacons(enc, trie.flat, old(Now()), restored);
      }
      MirrorAll(trie, BeaconWrite, restored);
    }

    method RestoreRow(h: nat, c: Digest)
      requires Valid() && (h, c) in spent
      modifies this`pending, this`spent, trie, trie.store
      ensures Valid()
      ensures !old(Synced()) || Synced()
      ensures pending == Assign(old(pending), (old(spent)[(h, c)].0, c), Some(old(spent)[(h, c)].1))
      ensures spent == old(spent) - {(h, c)}
      ensures old(spent)[(h, c)].0 < HEIGHTS &&
              trie.touched <= old(trie.touched) + {CommitKey((old(spent)[(h, c)].0, c))}
    {
      var row := spent[(h, c)];
      PutPending((row.0, c), Some(row.1));
      spent := spent - {(h, c)};
    }

    /** restoreConsumedAtHeight: re-put every commitment a reveal at h spent, and clear h's journal. */
    method RestoreConsumed(h: nat)
      requires Valid()
      modifies this`pending, this`spent, trie, trie.store
      ensures Valid()
      ensures !old(Synced()) || Synced()
      ensures RowsRestored(old(Commits()), Commits(), h, {})
      ensures trie.touched <= old(trie.touched) + SpentKeys(old(spent))
    {
      ghost var was := Commits();
      var todo := set y | y in spent && y.0 == h :: y.1;
      while todo != {}
        invariant Valid()
        invariant !old(Synced()) || Synced()
        invariant forall c :: c in todo ==> (h, c) in was.spent
        invariant RowsRestored(was, Commits(), h, todo)
        invariant trie.touched <= old(trie.touched) + SpentKeys(was.spent)
      {
        var c :| c in todo;
        RowRestored(was, Commits(), h, todo, c);
        assert CommitKey((was.spent[(h, c)].0, c)) in SpentKeys(was.spent);
        RestoreRow(h, c);
        todo := todo - {c};
      }
    }

    /** deleteCommitsAtHeight */
    method DropRecorded(h: nat)
      requires Valid()
      modifies this`pending, trie, trie.store
      ensures Valid()
      ensures !old(Synced()) || Synced()
      ensures pending == old(pending) - RecordedAt(old(pending), h)
      ensures trie.touched <= old(trie.touched) + PendingKeys(old(pending))
    {
      DropPending(RecordedAt(pending, h));
    }

    /** The commitment part of unwindHeightTxn: drop what h recorded, re-put what h consumed. */
    method UndoCommits(h: nat)
      requires Valid()
      modifies this`pending, this`spent, trie, trie.store
      ensures Valid()
      ensures !old(Synced()) || Synced()
      ensures Commits() == CommitReveal.Undone(old(Commits()), h)
      ensures trie.touched <= old(trie.touched) + StoreKeys(old(Commits()))
    {
      DropRecorded(h);
      ghost var mid := Commits();
      RestoreConsumed(h);
      RestoredIsUndone(old(Commits()), mid, Commits(), h);
    }

    /** The three domains of one height. */
    method RevertDomains(h: Height)
      requires Valid()
      modifies bal, con, key, trie, trie.store
      ensures Valid()
      ensures !old(Synced()) || Synced()
      ensures bal.View() == Reverted(old(bal.View()), h) && con.View() == Reverted(old(con.View()), h)
      ensures key.View() == Reverted(old(key.View()), h)
      ensures trie.touched <= old(trie.touched) + DomainRows(old(Archive()))
    {
      RevertBalances(h);
      RevertContracts(h);
      RevertKeys(h);
    }

    /** unwindHeightTxn: every domain, the commitments and the beacon of one height. */
    method UnwindHeight(h: Height)
      requires Valid()
      modifies this`pending, this`spent, bal, con, key, bea, trie, trie.store
      ensures Valid()
      ensures !old(Synced()) || Synced()
      ensures All() == HeightUndone(old(All()), h)
      ensures trie.touched <= old(trie.touched) + UndoKeys(old(All()))
    {
      RevertDomains(h);
      UndoCommits(h);
      RevertBeacon(h);
    }

    method UnwindNext(h: Height, g: nat, target: nat, ghost goal: Content, ghost was: Keys, ghost c0: Content)
      requires Valid() && target < h && g == h - 1 && ToGo(All(), h, target, goal)
      requires Undoing(was, c0, trie.touched, All())
      modifies this`pending, this`spent, bal, con, key, bea, trie, trie.store
      ensures Valid()
      ensures !old(Synced()) || Synced()
      ensures ToGo(All(), g, target, goal)
      ensures Undoing(was, c0, trie.touched, All())
    {
      ghost var c, mid := All(), trie.touched;
      UnwindHeight(h);
      UndoingStep(was, c0, mid, c, h, trie.touched, All());
      ToGoStep(c, h, target, goal, All(), g);
    }

    /** UnwindToTxn's loop: from the tip down to the target. */
    method UnwindTo(tip: Height, target: nat)
      requires Valid()
      modifies this`pending, this`spent, bal, con, key, bea, trie, trie.store
      ensures Valid()
      ensures !old(Synced()) || Synced()
      ensures All() == AllUnwound(old(All()), tip, target)
      ensures trie.touched <= old(trie.touched) + UndoKeys(old(All()))
      ensures UndoKeys(All()) <= UndoKeys(old(All()))
    {
      var h: nat := tip;
      ghost var goal := AllUnwound(All(), tip, target);
      ghost var was, c0 := trie.touched, All();
      ToGoStart(All(), tip, target, goal);
      UndoingStart(was, c0);
      while h > target
        invariant Valid()
        invariant !old(Synced()) || Synced()
        invariant h <= tip && ToGo(All(), h, target, goal)
        invariant Undoing(was, c0, trie.touched, All())
      {
        var g: nat := h - 1;
        UnwindNext(h, g, target, goal, was, c0);
        h := g;
      }
      ToGoDone(All(), h, target, goal);
      UndoingDone(was, c0, trie.touched, All());
    }
  }

  lemma CutOff(was: CommitReveal.Store, tip: nat, cutoff: nat, s: CommitReveal.Store)
    requires cutoff == if tip <= CommitReveal.WINDOW then 0 else tip - CommitReveal.WINDOW
    requires s.pending == was.pending - set x | x in was.pending && x.0 < cutoff
    requires s.spent == map y | y in was.spent && !(y.0 < cutoff) :: was.spent[y]
    ensures s == CommitReveal.Pruned(was, tip)
  {
    assert s.pending == CommitReveal.Pruned(was, tip).pending;
    assert s.spent == CommitReveal.Pruned(was, tip).spent;
  }

  /** Undoing the heights h .. target+1 of c leads to the goal (sealed inside the loop). */
  ghost predicate ToGo(c: Content, h: nat, target: nat, goal: Content) {
    forall seal {:trigger Opened(UNDONE, seal)} :: Opened(UNDONE, seal) ==> AllUnwound(c, h, target) == goal
  }

  lemma ToGoStart(c: Content, h: nat, target: nat, goal: Content)
    requires AllUnwound(c, h, target) == goal
    ensures ToGo(c, h, target, goal)
  {}

  lemma ToGoStep(c: Content, h: nat, target: nat, goal: Content, d: Content, g: nat)
    requires ToGo(c, h, target, goal) && target < h && d == HeightUndone(c, h) && g == h - 1
    ensures ToGo(d, g, target, goal)
  {
    assert Opened(UNDONE, true);
    UnwindFirst(c, h, target);
  }

  lemma ToGoDone(c: Content, h: nat, target: nat, goal: Content)
    requires ToGo(c, h, target, goal) && h <= target
    ensures c == goal
  {
    assert Opened(UNDONE, true);
  }

  /** The rows of height h restored except those still to do. */
  ghost predicate RowsRestored(was: CommitReveal.Store, s: CommitReveal.Store, h: nat, todo: set<Digest>) {
    && (forall x: CommitReveal.Key :: Lookup(s.pending, x)
          == if x.1 !in todo && CommitReveal.Row(was, h, x).Some? then CommitReveal.Row(was, h, x)
            else Lookup(was.pending, x))
    && (forall y: CommitReveal.Key ::
        Lookup(s.spent, y) == if y.0 == h && y.1 !in todo then None else Lookup(was.spent, y))
  }

  lemma RowRestored(was: CommitReveal.Store, s: CommitReveal.Store, h: nat, todo: set<Digest>, c: Digest)
    requires RowsRestored(was, s, h, todo) && c in todo && (h, c) in was.spent
    ensures (h, c) in s.spent && s.spent[(h, c)] == was.spent[(h, c)]
    ensures var row := was.spent[(h, c)];
            RowsRestored(was, CommitReveal.Store(Assign(s.pending, (row.0, c), Some(row.1)), s.spent - {(h, c)}),
                         h, todo - {c})
  {
    assert Lookup(s.spent, (h, c)) == Lookup(was.spent, (h, c));
    var row := was.spent[(h, c)];
    var p, t := Assign(s.pending, (row.0, c), Some(row.1)), s.spent - {(h, c)};
    forall x: CommitReveal.Key
      ensures Lookup(p, x) == if x.1 !in todo - {c} && CommitReveal.Row(was, h, x).Some?
                then CommitReveal.Row(was, h, x) else Lookup(was.pending, x)
    {
      assert Lookup(p, x) == if x == (row.0, c) then Some(row.1) else Lookup(s.pending, x);
    }
    forall y: CommitReveal.Key
      ensures Lookup(t, y) == if y.0 == h && y.1 !in todo - {c} then None else Lookup(was.spent, y)
    {
      assert Lookup(t, y) == if y == (h, c) then None else Lookup(s.spent, y);
    }
  }

  /** The commitments a height recorded. */
  function RecordedAt(m: map<CommitReveal.Key, Digest>, h: nat): (r: set<CommitReveal.Key>) {
    set x | x in m && x.0 == h
  }

  lemma RestoredIsUndone(was: CommitReveal.Store, mid: CommitReveal.Store, s: CommitReveal.Store, h: nat)
    requires mid.spent == was.spent && mid.pending == was.pending - RecordedAt(was.pending, h)
    requires RowsRestored(mid, s, h, {})
    ensures s == CommitReveal.Undone(was, h)
  {
    var u := CommitReveal.Undone(was, h);
    forall x ensures Lookup(s.pending, x) == Lookup(u.pending, x) {
      assert CommitReveal.Row(mid, h, x) == CommitReveal.Row(was, h, x);
      assert Lookup(mid.pending, x) == if x.0 == h then None else Lookup(was.pending, x);
    }
    SameLookups(s.pending, u.pending);
    forall y ensures Lookup(s.spent, y) == Lookup(u.spent, y) {}
    SameLookups(s.spent, u.spent);
  }

  /** Unless leaf paths of written keys collide, the root is that of the committed buckets. */
  lemma RootIs(s: State)
    requires s.Valid() && s.Synced() && NoCollision(s.H, s.trie.touched)
    ensures TreeRoot(s.H, s.trie.leaves) == RootOf(s.H, s.enc, s.Now())
  {
    FaithfulLeaves(s.H, s.trie.leaves, s.trie.flat, s.trie.touched);
  }

  /** Two states with the same root have the same committed buckets, unless the hash function is broken on what
      their commitments hash for one of their entries, or leaf paths of written keys collide. */
  lemma SameRootSameState(s: State, r: State)
    requires s.Valid() && r.Valid() && s.Synced() && r.Synced() && s.H == r.H && s.enc == r.enc
    requires NoCollision(s.H, s.trie.touched + r.trie.touched)
    requires TreeRoot(s.H, s.trie.leaves) == TreeRoot(r.H, r.trie.leaves)
    ensures SamePlain(s.enc, s.Now(), r.Now()) || SomeClash(s.H, s.trie.flat, r.trie.flat)
  {
    RootIs(s);
    RootIs(r);
    FlatTouched(s);
    FlatTouched(r);
    RootBinds(s.H, s.enc, s.Now(), r.Now(), s.trie.flat, r.trie.flat);
  }

  lemma FlatTouched(s: State)
    requires s.Valid() && NoCollision(s.H, s.trie.touched)
    ensures s.trie.flat.Keys <= s.trie.touched
  {
    assert Opened(LEAVES, true);
  }

  /** Two states over the same committed buckets have the same root, whatever either went through, unless leaf
      paths of written keys collide. */
  lemma SameState(a: State, b: State)
    requires a.Valid() && b.Valid() && a.Synced() && b.Synced()
    requires a.H == b.H && a.enc == b.enc && a.Now() == b.Now()
    requires NoCollision(a.H, a.trie.touched + b.trie.touched)
    ensures TreeRoot(a.H, a.trie.leaves) == TreeRoot(b.H, b.trie.leaves)
  {
    InSyncFunctional(a.enc, a.trie.flat, b.trie.flat, a.Now());
    SameRoot(a.H, a.trie.leaves, b.trie.leaves, a.trie.flat, a.trie.touched, b.trie.touched);
  }
}
