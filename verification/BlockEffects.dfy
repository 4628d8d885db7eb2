/** What a block leaves at each address, read off its lists of commitments and writes. */
module BlockEffects {
  import opened Basics
  import opened Domains
  import opened Committed
  import opened KeyOrder
  import opened Contents
  import CommitReveal
  import opened CommitEffects
  import Beacon

  /** The fees an address owes for its own commitments. */
  function FeesOf(cs: seq<Charged>, a: Digest): (r: nat) {
    if cs == [] then 0
    else
      var x := cs[|cs| - 1];
      FeesOf(cs[..|cs| - 1], a) + if x.commit.from == a then x.fee else 0
  }

  /** Everybody affords the fees of their own commitments. */
  ghost predicate Affordable(m: map<Digest, nat>, cs: seq<Charged>) {
    forall a: Digest :: FeesOf(cs, a) <= Balance(m, a)
  }

  /** Everybody paid exactly those. */
  ghost predicate Debited(m: map<Digest, nat>, n: map<Digest, nat>, cs: seq<Charged>) {
    forall a: Digest :: Balance(n, a) + FeesOf(cs, a) == Balance(m, a)
  }

  lemma BalancePut(d: Domain<Digest, nat>, h: nat, a: Digest, n: nat, x: Digest)
    ensures Balance(Put(d, h, Write(a, Some(n))).state, x) == if x == a then n else Balance(d.state, x)
  {
    var e := Put(d, h, Write(a, Some(n)));
    assert Lookup(e.state, x) == if x == a then Some(n) else Lookup(d.state, x);
  }

  /** One commitment: the committer pays its fee, or cannot. */
  lemma OnePays(b: Buckets, h: nat, x: Charged)
    ensures Paid(b, h, x).Some? <==> x.fee <= Balance(b.bal.state, x.commit.from)
    ensures Paid(b, h, x).Some? ==>
              var e := Paid(b, h, x).value;
              && e == b.(bal := e.bal)
              && forall a: Digest :: Balance(e.bal.state, a) + (if a == x.commit.from then x.fee else 0)
                                  == Balance(b.bal.state, a)
  {
    var from, have := x.commit.from, Balance(b.bal.state, x.commit.from);
    if x.fee <= have {
      forall a: Digest ensures Balance(Paid(b, h, x).value.bal.state, a)
                            == if a == from then have - x.fee else Balance(b.bal.state, a) {
        BalancePut(b.bal, h, from, have - x.fee, a);
      }
    }
  }

  /** The commitments of a block go through exactly when everybody affords their own fees in sum, and then
      everybody is left with what they had minus that sum. */
  lemma {:induction false} FeesPaid(b: Buckets, h: nat, cs: seq<Charged>)
    ensures PaidAll(b, h, cs).Some? <==> Affordable(b.bal.state, cs)
    ensures PaidAll(b, h, cs).Some? ==>
              var e := PaidAll(b, h, cs).value;
              e == b.(bal := e.bal) && Debited(b.bal.state, e.bal.state, cs)
  {
    if cs != [] {
      var front, x := cs[..|cs| - 1], cs[|cs| - 1];
      FeesPaid(b, h, front);
      if PaidAll(b, h, front).Some? {
        var m := PaidAll(b, h, front).value;
        OnePays(m, h, x);
        FeesStep(b.bal.state, m.bal.state, front, x, cs);
        if Paid(m, h, x).Some? {
          DebitedStep(b.bal.state, m.bal.state, Paid(m, h, x).value.bal.state, front, x, cs);
        }
      } else {
        var a: Digest :| FeesOf(front, a) > Balance(b.bal.state, a);
        assert FeesOf(cs, a) >= FeesOf(front, a);
      }
    }
  }

  lemma FeesStep(m: map<Digest, nat>, n: map<Digest, nat>, front: seq<Charged>, x: Charged, cs: seq<Charged>)
    requires cs != [] && front == cs[..|cs| - 1] && x == cs[|cs| - 1] && Debited(m, n, front)
    ensures Affordable(m, cs) <==> x.fee <= Balance(n, x.commit.from)
  {
    var from := x.commit.from;
    assert Balance(n, from) + FeesOf(front, from) == Balance(m, from);
    assert FeesOf(cs, from) == FeesOf(front, from) + x.fee;
    forall a: Digest ensures a != from ==> FeesOf(cs, a) <= Balance(m, a) {
      assert Balance(n, a) + FeesOf(front, a) == Balance(m, a);
    }
  }

  lemma DebitedStep(m: map<Digest, nat>, n: map<Digest, nat>, o: map<Digest, nat>, front: seq<Charged>, x: Charged,
                    cs: seq<Charged>)
    requires cs != [] && front == cs[..|cs| - 1] && x == cs[|cs| - 1] && Debited(m, n, front)
    requires forall a: Digest :: Balance(o, a) + (if a == x.commit.from then x.fee else 0) == Balance(n, a)
    ensures Debited(m, o, cs)
  {
    forall a: Digest ensures Balance(o, a) + FeesOf(cs, a) == Balance(m, a) {
      assert Balance(n, a) + FeesOf(front, a) == Balance(m, a);
    }
  }

  // ---- the writes of the txs: the last one counts ----

  /** The last balance written to an address. */
  function LastBalance(ops: seq<Op>, a: Digest): (r: Option<nat>) {
    if ops == [] then None
    else
      var op := ops[|ops| - 1];
      if op.SetBalance? && op.a == a then Some(op.n) else LastBalance(ops[..|ops| - 1], a)
  }

  /** The last thing done to a contract slot: some slot stored, or the slot deleted. */
  function LastSlot(H: Hasher, ops: seq<Op>, a: Digest): (r: Option<Option<Slot>>) {
    if ops == [] then None
    else
      var op := ops[|ops| - 1];
      if op.SetContract? && op.a == a then Some(Some(Slot(H(op.source), op.context)))
      else if op.DelContract? && op.a == a then Some(None)
      else LastSlot(H, ops[..|ops| - 1], a)
  }

  /** The first key registered for an address. */
  function FirstKey(ops: seq<Op>, a: Digest): (r: Option<Bytes1>) {
    if ops == [] then None
    else
      var r, op := FirstKey(ops[..|ops| - 1], a), ops[|ops| - 1];
      if r.None? && op.Register? && op.a == a then Some(op.entry) else r
  }

  /** What the writes leave at an address. */
  ghost predicate WrittenAt(H: Hasher, b: Buckets, ops: seq<Op>, e: Buckets, a: Digest) {
    && Balance(e.bal.state, a) == (var n := LastBalance(ops, a); if n.Some? then n.value else Balance(b.bal.state, a))
    && Lookup(e.con.state, a) == (var v := LastSlot(H, ops, a); if v.Some? then v.value else Lookup(b.con.state, a))
    && Lookup(e.key.state, a) == (var k := Lookup(b.key.state, a); if k.Some? then k else FirstKey(ops, a))
  }

  lemma OneWritten(H: Hasher, b: Buckets, h: nat, op: Op, a: Digest)
    ensures var e := Wrote(H, b, h, op);
            && Balance(e.bal.state, a) == (if op.SetBalance? && op.a == a then op.n else Balance(b.bal.state, a))
            && Lookup(e.con.state, a) == (if op.SetContract? && op.a == a then Some(Slot(H(op.source), op.context))
                                          else if op.DelContract? && op.a == a then None else Lookup(b.con.state, a))
            && Lookup(e.key.state, a) == (var k := Lookup(b.key.state, a);
                                          if k.None? && op.Register? && op.a == a then Some(op.entry) else k)
            && e.bea == b.bea
  {
    match op
    case SetBalance(x, n) => BalancePut(b.bal, h, x, n, a);
    case _ =>
  }

  lemma {:induction false} AllWritten(H: Hasher, b: Buckets, h: nat, ops: seq<Op>, a: Digest)
    ensures WrittenAt(H, b, ops, WroteAll(H, b, h, ops), a) && WroteAll(H, b, h, ops).bea == b.bea
  {
    if ops != [] {
      AllWritten(H, b, h, ops[..|ops| - 1], a);
      OneWritten(H, WroteAll(H, b, h, ops[..|ops| - 1]), h, ops[|ops| - 1], a);
    }
  }

  /** A block applies exactly when everybody affords the fees of their own commitments and the commitment store
      takes them. Then an address no tx wrote to has its balance minus those fees, one that was written to has what
      was written last, a slot is what was last stored or deleted, and a key is the first ever registered. */
  lemma BlockBalances(H: Hasher, c: Content, h: Height, block: Block, a: Digest)
    ensures BlockOn(H, c, h, block).Some? <==>
              Affordable(c.buckets.bal.state, block.commits)
              && CommitReveal.Apply(c.commits, h, Commitments(block)).Some?
    ensures BlockOn(H, c, h, block).Some? ==>
              var b, e := c.buckets, BlockOn(H, c, h, block).value.buckets;
              var n, v, k := LastBalance(block.ops, a), LastSlot(H, block.ops, a), Lookup(b.key.state, a);
              && Balance(e.bal.state, a)
                 == (if n.Some? then n.value else Balance(b.bal.state, a) - FeesOf(block.commits, a))
              && Lookup(e.con.state, a) == (if v.Some? then v.value else Lookup(b.con.state, a))
              && Lookup(e.key.state, a) == (if k.Some? then k else FirstKey(block.ops, a))
  {
    FeesPaid(c.buckets, h, block.commits);
    if PaidAll(c.buckets, h, block.commits).Some? {
      var paid := PaidAll(c.buckets, h, block.commits).value;
      AllWritten(H, paid, h, block.ops, a);
      assert Balance(paid.bal.state, a) + FeesOf(block.commits, a) == Balance(c.buckets.bal.state, a);
    }
  }

  // ---- commitments, reveals and the seed ----

  lemma {:induction false} ListedCommits(cs: seq<Charged>)
    ensures |Commits(cs)| == |cs| && forall i :: 0 <= i < |cs| ==> Commits(cs)[i] == cs[i].commit
  {
    if cs != [] {
      ListedCommits(cs[..|cs| - 1]);
    }
  }

  lemma {:induction false} ListedEffects(ops: seq<Op>, e: CommitReveal.Entry)
    ensures multiset(Effects(ops))[e] == multiset(ops)[Consume(e)]
  {
    if ops != [] {
      var front, op := ops[..|ops| - 1], ops[|ops| - 1];
      ListedEffects(front, e);
      assert ops == front + [op];
    }
  }

  lemma ListedIn(block: Block, e: CommitReveal.Entry)
    ensures e in Commitments(block).commits <==> exists i :: 0 <= i < |block.commits| && block.commits[i].commit == e
    ensures e in Commitments(block).effects <==> Consume(e) in block.ops
  {
    ListedCommits(block.commits);
    ListedEffects(block.ops, e);
    assert e in Effects(block.ops) <==> e in multiset(Effects(block.ops));
    assert Consume(e) in block.ops <==> Consume(e) in multiset(block.ops);
  }

  /** When a block applies, in the terms of its lists: everybody affords the fees of their own commitments, none of
      these is pending already, and every reveal finds a commitment of its own sender in the window. */
  lemma BlockAccepted(H: Hasher, c: Content, h: Height, block: Block)
    requires CommitReveal.WellFormed(Commitments(block))
    ensures BlockOn(H, c, h, block).Some?
       <==> && Affordable(c.buckets.bal.state, block.commits)
            && (forall i :: 0 <= i < |block.commits| ==> !StillPending(c.commits, block.commits[i].commit, h))
            && (forall e :: Consume(e) in block.ops ==> Revealable(c.commits, e, h))
  {
    FeesPaid(c.buckets, h, block.commits);
    ApplyIff(c.commits, h, Commitments(block));
    FreshIff(c.commits, h, block.commits);
    FoundAllIff(c.commits, h, block.ops);
  }

  lemma FreshIff(s: CommitReveal.Store, h: nat, cs: seq<Charged>)
    ensures (forall e :: e in Commits(cs) ==> !StillPending(s, e, h))
       <==> (forall i :: 0 <= i < |cs| ==> !StillPending(s, cs[i].commit, h))
  {
    ListedCommits(cs);
    assert forall i :: 0 <= i < |cs| ==> cs[i].commit in Commits(cs);
  }

  lemma FoundAllIff(s: CommitReveal.Store, h: nat, ops: seq<Op>)
    ensures (forall e :: e in Effects(ops) ==> Revealable(s, e, h))
       <==> (forall e :: Consume(e) in ops ==> Revealable(s, e, h))
  {
    forall e: CommitReveal.Entry ensures e in Effects(ops) <==> Consume(e) in ops {
      ListedEffects(ops, e);
      assert e in Effects(ops) <==> e in multiset(Effects(ops));
      assert Consume(e) in ops <==> Consume(e) in multiset(ops);
    }
  }

  lemma BlockKeeps(H: Hasher, c: Content, h: Height, block: Block, d: Content, e: CommitReveal.Entry)
    requires h > 0 && CommitReveal.Sound(c.commits, h - 1) && CommitReveal.WellFormed(Commitments(block))
    requires BlockOn(H, c, h, block) == Some(d)
    ensures forall r: nat :: r != h ==>
              (CommitReveal.PendingAt(d.commits, e.from, e.hash, r)
          <==> CommitReveal.PendingAt(c.commits, e.from, e.hash, r) && h <= r + 3 && Consume(e) !in block.ops)
  {
    ListedIn(block, e);
    forall r: nat | r != h
      ensures CommitReveal.PendingAt(d.commits, e.from, e.hash, r)
         <==> CommitReveal.PendingAt(c.commits, e.from, e.hash, r) && h <= r + 3 && Consume(e) !in block.ops
    {
      ApplyKeeps(c.commits, h, Commitments(block), d.commits, e.from, e.hash, r);
    }
  }

  /** Exactly its own commitments are pending at its height, and at every other height those that were, are in the
      window and were not revealed; the seed is the hash of the seed before, the parent hash, the hashed salts and the
      height, or unchanged before the fork. */
  lemma BlockRecords(H: Hasher, c: Content, h: Height, block: Block, d: Content, e: CommitReveal.Entry)
    requires h > 0 && CommitReveal.Sound(c.commits, h - 1) && CommitReveal.WellFormed(Commitments(block))
    requires BlockOn(H, c, h, block) == Some(d)
    ensures CommitReveal.PendingAt(d.commits, e.from, e.hash, h)
       <==> exists i :: 0 <= i < |block.commits| && block.commits[i].commit == e
    ensures forall r: nat :: r != h ==>
              (CommitReveal.PendingAt(d.commits, e.from, e.hash, r)
          <==> CommitReveal.PendingAt(c.commits, e.from, e.hash, r) && h <= r + 3 && Consume(e) !in block.ops)
    ensures SeedOf(d.buckets.bea.state)
         == if block.beacon
            then H(Beacon.Preimage(SeedOf(c.buckets.bea.state), block.prevHash, H(Beacon.Folded(block.salts)), h))
            else SeedOf(c.buckets.bea.state)
  {
    ApplyRecords(c.commits, h, Commitments(block), d.commits, e.from, e.hash);
    ListedIn(block, e);
    BlockKeeps(H, c, h, block, d, e);
    FeesPaid(c.buckets, h, block.commits);
    var paid := PaidAll(c.buckets, h, block.commits).value;
    AllWritten(H, paid, h, block.ops, e.from);
    if block.beacon {
      SeedPut(paid.bea, h, Beacon.Seed(H, SeedOf(paid.bea.state), block.prevHash, block.salts, h));
    }
  }

  lemma SeedPut(d: Domain<(), Bytes1>, h: nat, seed: Digest)
    ensures SeedOf(Put(d, h, Write((), Some(seed))).state) == seed
  {
    assert Lookup(Put(d, h, Write((), Some(seed))).state, ()) == Some(seed);
  }

  // ---- reference counts of the code bucket ----

  /** The live slots that run a module. */
  function Users(m: map<Digest, Slot>, hash: Digest): (r: set<Digest>) {
    set a | a in m && m[a].codeHash == hash
  }

  function Refs(code: Code, hash: Digest): (r: nat) {
    if hash in code then code[hash].refs else 0
  }

  /** Every module is counted once for each live slot that runs it. */
  ghost predicate Counted(code: Code, m: map<Digest, Slot>) {
    forall hash: Digest :: Refs(code, hash) == |Users(m, hash)|
  }

  /** Off the archive exactly the modules that some live slot runs are kept. */
  ghost predicate NoneUnused(code: Code, m: map<Digest, Slot>) {
    forall hash: Digest :: hash in code <==> Users(m, hash) != {}
  }

  lemma UsersDropped(m: map<Digest, Slot>, a: Digest, hash: Digest)
    ensures |Users(m - {a}, hash)| == |Users(m, hash)| - if a in m && m[a].codeHash == hash then 1 else 0
    ensures Users(m - {a}, hash) == Users(m, hash) - {a}
  {
    assert Users(m - {a}, hash) == Users(m, hash) - {a};
    if a in m && m[a].codeHash == hash {
      assert a in Users(m, hash);
    } else {
      assert Users(m, hash) - {a} == Users(m, hash);
    }
  }

  lemma UsersAdded(m: map<Digest, Slot>, a: Digest, slot: Slot, hash: Digest)
    requires a !in m
    ensures |Users(m[a := slot], hash)| == |Users(m, hash)| + if slot.codeHash == hash then 1 else 0
    ensures Users(m[a := slot], hash) == Users(m, hash) + if slot.codeHash == hash then {a} else {}
  {
    assert Users(m[a := slot], hash) == Users(m, hash) + if slot.codeHash == hash then {a} else {};
  }

  /** A module in use is counted at least once. */
  lemma InUse(code: Code, m: map<Digest, Slot>, a: Digest)
    requires Counted(code, m) && a in m
    ensures Refs(code, m[a].codeHash) >= 1 && m[a].codeHash in code
  {
    assert a in Users(m, m[a].codeHash);
  }

  /** Dropping a slot takes one reference off its module, and off the archive the module with the last one. */
  lemma DropCounts(code: Code, m: map<Digest, Slot>, a: Digest, keep: bool)
    requires Counted(code, m)
    ensures Counted(Dropped(code, Lookup(m, a), keep), m - {a})
    ensures !keep && NoneUnused(code, m) ==> NoneUnused(Dropped(code, Lookup(m, a), keep), m - {a})
  {
    var n := Dropped(code, Lookup(m, a), keep);
    if a in m {
      InUse(code, m, a);
    }
    forall hash: Digest ensures Refs(n, hash) == |Users(m - {a}, hash)| {
      UsersDropped(m, a, hash);
    }
    if !keep && NoneUnused(code, m) {
      forall hash: Digest ensures hash in n <==> Users(m - {a}, hash) != {} {
        UsersDropped(m, a, hash);
        assert Users(m - {a}, hash) != {} <==> |Users(m - {a}, hash)| > 0;
      }
    }
  }

  lemma RetainCounts(code: Code, m: map<Digest, Slot>, a: Digest, slot: Slot, bytes: Bytes)
    requires Counted(code, m) && a !in m
    ensures Counted(Retained(code, slot.codeHash, bytes), m[a := slot])
    ensures NoneUnused(code, m) ==> NoneUnused(Retained(code, slot.codeHash, bytes), m[a := slot])
  {
    forall hash: Digest ensures Refs(Retained(code, slot.codeHash, bytes), hash) == |Users(m[a := slot], hash)| {
      UsersAdded(m, a, slot, hash);
    }
    if NoneUnused(code, m) {
      forall hash: Digest ensures hash in Retained(code, slot.codeHash, bytes) <==> Users(m[a := slot], hash) != {} {
        UsersAdded(m, a, slot, hash);
      }
    }
  }

  lemma SameUsers(m: map<Digest, Slot>, a: Digest, slot: Slot, hash: Digest)
    requires a in m && m[a].codeHash == slot.codeHash
    ensures Users(m[a := slot], hash) == Users(m, hash)
  {}

  /** Storing a slot moves one reference from the module it ran to the one it runs. */
  lemma StoreCounts(code: Code, m: map<Digest, Slot>, a: Digest, slot: Slot, bytes: Bytes, keep: bool)
    requires Counted(code, m)
    ensures Counted(Reconciled(code, Lookup(m, a), slot.codeHash, bytes, keep), m[a := slot])
    ensures !keep && NoneUnused(code, m) ==>
              NoneUnused(Reconciled(code, Lookup(m, a), slot.codeHash, bytes, keep), m[a := slot])
  {
    if a in m && m[a].codeHash == slot.codeHash {
      forall hash: Digest ensures Users(m[a := slot], hash) == Users(m, hash) {
        SameUsers(m, a, slot, hash);
      }
    } else {
      DropCounts(code, m, a, keep);
      RetainCounts(Dropped(code, Lookup(m, a), keep), m - {a}, a, slot, bytes);
      assert (m - {a})[a := slot] == m[a := slot];
    }
  }

  lemma OpCounts(H: Hasher, code: Code, b: Buckets, h: nat, op: Op)
    requires Counted(code, b.con.state)
    ensures Counted(Coded(H, code, b, op), Wrote(H, b, h, op).con.state)
  {
    var m := b.con.state;
    match op
    case SetContract(a, source, context) =>
      StoreCounts(code, m, a, Slot(H(source), context), source, true);
      SlotPut(b.con, h, Write(a, Some(Slot(H(source), context))));
    case DelContract(a) =>
      DropCounts(code, m, a, true);
      SlotPut(b.con, h, Write(a, None));
    case _ =>
  }

  lemma SlotPut(d: Domain<Digest, Slot>, h: nat, w: Write<Digest, Slot>)
    ensures Put(d, h, w).state == if w.value.Some? then d.state[w.key := w.value.value] else d.state - {w.key}
  {}

  lemma {:induction false} OpsCount(H: Hasher, code: Code, b: Buckets, h: nat, ops: seq<Op>)
    requires Counted(code, b.con.state)
    ensures Counted(CodedAll(H, code, b, h, ops), WroteAll(H, b, h, ops).con.state)
  {
    if ops != [] {
      var front := ops[..|ops| - 1];
      OpsCount(H, code, b, h, front);
      OpCounts(H, CodedAll(H, code, b, h, front), WroteAll(H, b, h, front), h, ops[|ops| - 1]);
    }
  }

  /** A block keeps the reference counts right. */
  lemma BlockCounts(H: Hasher, c: Content, h: Height, block: Block, d: Content)
    requires Counted(c.code, c.buckets.con.state) && BlockOn(H, c, h, block) == Some(d)
    ensures Counted(d.code, d.buckets.con.state)
  {
    FeesPaid(c.buckets, h, block.commits);
    OpsCount(H, c.code, PaidAll(c.buckets, h, block.commits).value, h, block.ops);
  }

  /** The unwind does not touch the code bucket, so after a reorg the counts are right exactly when every module has
      as many live slots as it had at the old tip. */
  lemma UnwindCountsIff(d: Content, tip: nat, f: nat, u: Content)
    requires Counted(d.code, d.buckets.con.state) && u == AllUnwound(d, tip, f)
    ensures Counted(u.code, u.buckets.con.state)
       <==> forall hash: Digest :: |Users(u.buckets.con.state, hash)| == |Users(d.buckets.con.state, hash)|
  {
    if Counted(u.code, u.buckets.con.state) {
      forall hash: Digest ensures |Users(u.buckets.con.state, hash)| == |Users(d.buckets.con.state, hash)| {
        assert Refs(u.code, hash) == Refs(d.code, hash);
      }
    } else {
      var hash: Digest :| Refs(u.code, hash) != |Users(u.buckets.con.state, hash)|;
      assert Refs(d.code, hash) == |Users(d.buckets.con.state, hash)|;
    }
  }
}
