/** What a contract run does, read off its list of host calls: who pays whom, what is stored, what the deposits take
    and when it traps. */
module VmFlows {
  import opened Basics
  import opened Sums
  import opened VmJournal

  /** The innermost frame pays for what it does. */
  function Payer(frames: seq<Digest>): (r: Digest)
    requires frames != []
  {
    frames[|frames| - 1]
  }

  /** The frames after a host call: a call to a live contract enters it, a return leaves the innermost one. */
  function Frames(slots: map<Digest, Contract>, frames: seq<Digest>, op: Op): (r: seq<Digest>)
    requires frames != []
    ensures r != []
  {
    match op
    case Call(callee) => if Live(slots, callee) then frames + [callee] else frames
    case Return => if |frames| > 1 then frames[..|frames| - 1] else frames
    case _ => frames
  }

  /** Nothing is left to do: no more calls, or the outermost frame returns. */
  predicate Over(frames: seq<Digest>, ops: seq<Op>) {
    ops == [] || (ops[0].Return? && |frames| == 1)
  }

  /** What the transfers that went through paid to x. */
  function Received(slots: map<Digest, Contract>, frames: seq<Digest>, ops: seq<Op>, ok: seq<bool>, x: Digest): (r: nat)
    requires frames != [] && |ok| == |ops|
    decreases |ops|
  {
    if Over(frames, ops) then 0
    else
      (if ops[0].Transfer? && ok[0] && ops[0].to == x then ops[0].amount else 0)
      + Received(slots, Frames(slots, frames, ops[0]), ops[1..], ok[1..], x)
  }

  /** What x paid in them. */
  function Spent(slots: map<Digest, Contract>, frames: seq<Digest>, ops: seq<Op>, ok: seq<bool>, x: Digest): (r: nat)
    requires frames != [] && |ok| == |ops|
    decreases |ops|
  {
    if Over(frames, ops) then 0
    else
      (if ops[0].Transfer? && ok[0] && Payer(frames) == x then ops[0].amount else 0)
      + Spent(slots, Frames(slots, frames, ops[0]), ops[1..], ok[1..], x)
  }

  /** One host call on the storage of the contract that makes it. */
  function Stores(kv: map<Bytes, Bytes>, op: Op): (r: map<Bytes, Bytes>) {
    match op
    case KvSet(key, value) => kv[key := value]
    case KvDel(key) => kv - {key}
    case _ => kv
  }

  /** The storage of contract x afterwards. */
  function Storage(slots: map<Digest, Contract>, frames: seq<Digest>, ops: seq<Op>, x: Digest, kv: map<Bytes, Bytes>)
    : (r: map<Bytes, Bytes>)
    requires frames != []
    decreases |ops|
  {
    if Over(frames, ops) then kv
    else
      Storage(slots, Frames(slots, frames, ops[0]), ops[1..], x, if Payer(frames) == x then Stores(kv, ops[0]) else kv)
  }

  function KvOf(contracts: map<Digest, Contract>, x: Digest): (r: map<Bytes, Bytes>) {
    if x in contracts then contracts[x].kv else map[]
  }

  /** The deposit for the bytes a contract's storage grew by. */
  ghost function Deposit(before: map<Bytes, Bytes>, after: map<Bytes, Bytes>, rent: bool): (r: int) {
    if rent then DEPOSIT_PER_BYTE * (StoredBytes(after) - StoredBytes(before)) else 0
  }

  /** The balance of x afterwards. */
  ghost function BalanceAfter(b: Book, slots: map<Digest, Contract>, frames: seq<Digest>, ops: seq<Op>, ok: seq<bool>,
                              rent: bool, x: Digest): (r: int)
    requires frames != [] && |ok| == |ops|
  {
    var kv := KvOf(b.contracts, x);
    Get(b.balances, x) + Received(slots, frames, ops, ok, x) - Spent(slots, frames, ops, ok, x)
    - Deposit(kv, Storage(slots, frames, ops, x, kv), rent)
  }

  function FramesAfter(slots: map<Digest, Contract>, frames: seq<Digest>, ops: seq<Op>): (r: seq<Digest>)
    requires frames != []
    ensures r != []
    decreases |ops|
  {
    if ops == [] then frames else FramesAfter(slots, Frames(slots, frames, ops[0]), ops[1..])
  }

  /** Which transfers go through: those the payer covers at that point. */
  ghost function Verdicts(b: Book, slots: map<Digest, Contract>, frames: seq<Digest>, ops: seq<Op>, rent: bool)
    : (r: seq<bool>)
    requires frames != []
    ensures |r| == |ops|
    decreases |ops|
  {
    if ops == [] then []
    else
      var front, op := ops[..|ops| - 1], ops[|ops| - 1];
      var ok := Verdicts(b, slots, frames, front, rent);
      ok + [op.Transfer? &&
            op.amount <= BalanceAfter(b, slots, frames, front, ok, rent, Payer(FramesAfter(slots, frames, front)))]
  }

  // ---- one host call ----

  function Gains(op: Op, paid: bool, x: Digest): (r: nat) {
    if paid && op.Transfer? && op.to == x then op.amount else 0
  }

  function Loses(op: Op, paid: bool, a: Digest, x: Digest): (r: nat) {
    if paid && op.Transfer? && a == x then op.amount else 0
  }

  ghost predicate FlowsAt(b: Book, a: Digest, op: Op, rent: bool, m: Book, paid: bool, x: Digest) {
    && KvOf(m.contracts, x) == (if x == a then Stores(KvOf(b.contracts, x), op) else KvOf(b.contracts, x))
    && (x != Escrow() ==>
        Get(m.balances, x) == Get(b.balances, x) + Gains(op, paid, x) - Loses(op, paid, a, x)
                              - Deposit(KvOf(b.contracts, x), KvOf(m.contracts, x), rent))
  }

  /** What one completed call changed, whether a transfer went through or not. */
  ghost predicate Flowed(b: Book, a: Digest, op: Op, rent: bool, m: Book, paid: bool) {
    && m.contracts.Keys == b.contracts.Keys
    && (forall x :: FlowsAt(b, a, op, rent, m, paid, x))
    && Slack(m) == Slack(b) + Gains(op, paid, Escrow())
  }

  lemma TransferFlows(b: Book, a: Digest, op: Op, rent: bool, m: Book)
    requires op.Transfer? && a != Escrow() && op.amount <= Get(b.balances, a)
    requires m == Book(Moved(b.balances, a, op.to, op.amount), b.contracts)
    ensures Flowed(b, a, op, rent, m, true)
  {
    MovedEscrow(b.balances, a, op.to, op.amount);
    forall x ensures FlowsAt(b, a, op, rent, m, true, x) {}
  }

  /** Only the payer's balance, the escrow and the locked total moved, by n. */
  ghost predicate Bond(b: Book, m: Book, a: Digest, n: int) {
    && m.contracts.Keys == b.contracts.Keys
    && (forall x :: KvOf(m.contracts, x) == KvOf(b.contracts, x))
    && (forall x :: x != Escrow() ==> Get(m.balances, x) == Get(b.balances, x) - if x == a then n else 0)
    && Slack(m) == Slack(b)
  }

  lemma MovedAt(m: map<Digest, nat>, from: Digest, to: Digest, value: nat, x: Digest)
    requires value <= Get(m, from)
    ensures Get(Moved(m, from, to, value), x)
         == Get(m, x) + (if x == to then value else 0) - if x == from then value else 0
  {}

  lemma SameStorage(contracts: map<Digest, Contract>, a: Digest, n: nat, x: Digest)
    requires a in contracts
    ensures KvOf(contracts[a := contracts[a].(rent := n)], x) == KvOf(contracts, x)
  {}

  lemma LockedBonds(b: Book, a: Digest, n: nat)
    requires a in b.contracts && a != Escrow() && n <= Get(b.balances, a)
    ensures Bond(b, Locked(b, a, n), a, n)
  {
    LockedKeeps(b, a, n);
    forall x ensures KvOf(Locked(b, a, n).contracts, x) == KvOf(b.contracts, x)
             ensures x != Escrow() ==>
                       Get(Locked(b, a, n).balances, x) == Get(b.balances, x) - if x == a then n else 0 {
      MovedAt(b.balances, a, Escrow(), n, x);
      SameStorage(b.contracts, a, b.contracts[a].rent + n, x);
    }
  }

  lemma PaidOutBonds(b: Book, a: Digest, n: nat)
    requires a in b.contracts && a != Escrow() && n <= b.contracts[a].rent && n <= Get(b.balances, Escrow())
    requires Slack(PaidOut(b, a, n)) == Slack(b)
    ensures Bond(b, PaidOut(b, a, n), a, 0 - n)
  {
    forall x ensures KvOf(PaidOut(b, a, n).contracts, x) == KvOf(b.contracts, x)
             ensures x != Escrow() ==>
                       Get(PaidOut(b, a, n).balances, x) == Get(b.balances, x) + if x == a then n else 0 {
      MovedAt(b.balances, Escrow(), a, n, x);
      SameStorage(b.contracts, a, b.contracts[a].rent - n, x);
    }
  }

  lemma RefundedBonds(b: Book, a: Digest, n: nat)
    requires a in b.contracts && a != Escrow() && Payout(b, a, n) == n
    ensures Bond(b, Refunded(b, a, n), a, 0 - n)
  {
    RefundedKeeps(b, a, n);
    if n > 0 {
      PaidOutBonds(b, a, n);
    }
  }

  lemma SettledBonds(b: Book, a: Digest, before: nat, after: nat, m: Book)
    requires a in b.contracts && a != Escrow() && Settled(b, a, before, after) == Some(m)
    requires Slack(b) >= 0 && BondExact(b.contracts[a]) && before <= StoredBytes(b.contracts[a].kv)
    ensures Bond(b, m, a, DEPOSIT_PER_BYTE * (after - before))
  {
    if after > before {
      LockedBonds(b, a, DEPOSIT_PER_BYTE * (after - before));
    } else if after < before {
      FullRefund(b, a, before - after);
      RefundedBonds(b, a, DEPOSIT_PER_BYTE * (before - after));
    }
  }

  lemma StoreFlows(b: Book, m: Book, a: Digest, op: Op, rent: bool, kv: map<Bytes, Bytes>, now: map<Bytes, Bytes>,
                   n: int, d: Book)
    requires (op.KvSet? || op.KvDel?) && a in b.contracts && a in m.contracts
    requires kv == b.contracts[a].kv && now == Stores(kv, op) && n == Deposit(kv, now, rent)
    requires Bond(b, m, a, n) && d == WithKv(m, a, now)
    ensures Flowed(b, a, op, rent, d, false)
  {
    WithKvKeeps(m, a, now);
    forall x ensures FlowsAt(b, a, op, rent, d, false, x) {
      assert KvOf(m.contracts, x) == KvOf(b.contracts, x);
      StoreFlowsAt(b, m, a, op, rent, kv, now, n, d, x);
    }
  }

  lemma StoreFlowsAt(b: Book, m: Book, a: Digest, op: Op, rent: bool, kv: map<Bytes, Bytes>, now: map<Bytes, Bytes>,
                     n: int, d: Book, x: Digest)
    requires !op.Transfer? && a in m.contracts && d == WithKv(m, a, now)
    requires kv == KvOf(b.contracts, a) && now == Stores(kv, op) && n == Deposit(kv, now, rent)
    requires KvOf(m.contracts, x) == KvOf(b.contracts, x)
    requires x != Escrow() ==> Get(m.balances, x) == Get(b.balances, x) - if x == a then n else 0
    ensures FlowsAt(b, a, op, rent, d, false, x)
  {
    assert KvOf(d.contracts, x) == if x == a then now else KvOf(m.contracts, x);
    assert x != a ==> Deposit(KvOf(b.contracts, x), KvOf(d.contracts, x), rent) == 0;
  }

  lemma SetDeposit(kv: map<Bytes, Bytes>, key: Bytes, value: Bytes, now: map<Bytes, Bytes>)
    requires now == kv[key := value]
    ensures Deposit(kv, now, true) == DEPOSIT_PER_BYTE * (|key| + |value| - SizeOf(kv, key))
  {
    StoredSet(kv, key, value);
  }

  lemma WrittenSettles(b: Book, a: Digest, key: Bytes, value: Bytes, kv: map<Bytes, Bytes>, before: nat, after: nat,
                       now: map<Bytes, Bytes>, d: Book) returns (m: Book)
    requires a in b.contracts && kv == b.contracts[a].kv && before == SizeOf(kv, key) && after == |key| + |value|
    requires now == kv[key := value] && Written(b, a, key, value, true) == Some(d)
    ensures Settled(b, a, before, after) == Some(m) && a in m.contracts && d == WithKv(m, a, now)
  {
    m := Settled(b, a, before, after).value;
  }

  lemma SetFlows(b: Book, a: Digest, op: Op, rent: bool, d: Book)
    requires op.KvSet? && a in b.contracts && a != Escrow()
    requires Written(b, a, op.key, op.value, rent) == Some(d) && (rent ==> Bonded(b) && Slack(b) >= 0)
    ensures Flowed(b, a, op, rent, d, false)
  {
    var kv := b.contracts[a].kv;
    var now := kv[op.key := op.value];
    if rent {
      var before, after := SizeOf(kv, op.key), |op.key| + |op.value|;
      var n := DEPOSIT_PER_BYTE * (after - before);
      var m := WrittenSettles(b, a, op.key, op.value, kv, before, after, now, d);
      assert BondExact(b.contracts[a]);
      SizeWithin(kv, op.key);
      SettledBonds(b, a, before, after, m);
      SetDeposit(kv, op.key, op.value, now);
      StoreFlows(b, m, a, op, rent, kv, now, n, d);
    } else {
      StoreFlows(b, b, a, op, rent, kv, now, 0, d);
    }
  }

  lemma DelFlows(b: Book, a: Digest, op: Op, rent: bool, d: Book)
    requires op.KvDel? && a in b.contracts && a != Escrow() && (rent ==> Bonded(b) && Slack(b) >= 0)
    requires d == Deleted(b, a, op.key, rent)
    ensures Flowed(b, a, op, rent, d, false)
  {
    var kv := b.contracts[a].kv;
    var now, before := kv - {op.key}, SizeOf(kv, op.key);
    StoredDel(kv, op.key);
    if rent && op.key in kv {
      assert BondExact(b.contracts[a]);
      SizeWithin(kv, op.key);
      FullRefund(b, a, before);
      var n := DEPOSIT_PER_BYTE * before;
      RefundedBonds(b, a, n);
      StoreFlows(b, Refunded(b, a, n), a, op, rent, kv, now, 0 - n, d);
    } else {
      StoreFlows(b, b, a, op, rent, kv, now, 0, d);
    }
  }

  /** Whether a transfer goes through. */
  predicate Covered(b: Book, frames: seq<Digest>, op: Op)
    requires frames != []
  {
    op.Transfer? && op.amount <= Get(b.balances, Payer(frames))
  }

  lemma IdleFlows(b: Book, a: Digest, op: Op, rent: bool)
    requires !op.KvSet? && !op.KvDel?
    ensures Flowed(b, a, op, rent, b, false)
  {
    forall x ensures FlowsAt(b, a, op, rent, b, false, x) {}
  }

  lemma StepFrames(base: Book, b: Book, frames: seq<Digest>, op: Op, rent: bool, m: Book, after: seq<Digest>)
    requires Placed(base, b, frames) && StepOn(base, b, frames, op, rent) == Some((m, after))
    ensures after == Frames(base.contracts, frames, op)
  {}

  lemma StepFlows(base: Book, b: Book, frames: seq<Digest>, op: Op, rent: bool, m: Book, after: seq<Digest>)
    requires Placed(base, b, frames) && Escrow() !in b.contracts && (rent ==> Bonded(b) && Slack(b) >= 0)
    requires StepOn(base, b, frames, op, rent) == Some((m, after))
    ensures Flowed(b, Payer(frames), op, rent, m, Covered(b, frames, op))
  {
    var a := Payer(frames);
    match op
    case Transfer(to, amount) =>
      if amount <= Get(b.balances, a) {
        TransferFlows(b, a, op, rent, m);
      } else {
        IdleFlows(b, a, op, rent);
      }
    case KvSet(key, value) => SetFlows(b, a, op, rent, m);
    case KvDel(key) => DelFlows(b, a, op, rent, m);
    case Call(_) => IdleFlows(b, a, op, rent);
    case Return => IdleFlows(b, a, op, rent);
  }

  // ---- the rest of the run starts from the book the first call left ----

  ghost predicate NoEscrow(slots: map<Digest, Contract>, frames: seq<Digest>) {
    frames != [] && Escrow() !in slots && Escrow() !in frames
  }

  lemma {:induction false} StillNoEscrow(slots: map<Digest, Contract>, frames: seq<Digest>, ops: seq<Op>)
    requires NoEscrow(slots, frames)
    ensures NoEscrow(slots, FramesAfter(slots, frames, ops))
    decreases |ops|
  {
    if ops != [] {
      StillNoEscrow(slots, Frames(slots, frames, ops[0]), ops[1..]);
    }
  }

  lemma BalanceShifts(b: Book, slots: map<Digest, Contract>, frames: seq<Digest>, ops: seq<Op>, ok: seq<bool>,
                      rent: bool, m: Book, x: Digest)
    requires frames != [] && |ok| == |ops| && !Over(frames, ops) && x != Escrow()
    requires FlowsAt(b, Payer(frames), ops[0], rent, m, ok[0], x)
    ensures BalanceAfter(b, slots, frames, ops, ok, rent, x)
         == BalanceAfter(m, slots, Frames(slots, frames, ops[0]), ops[1..], ok[1..], rent, x)
  {}

  lemma StorageShifts(b: Book, slots: map<Digest, Contract>, frames: seq<Digest>, ops: seq<Op>, rent: bool, m: Book,
                      paid: bool, x: Digest)
    requires frames != [] && !Over(frames, ops) && FlowsAt(b, Payer(frames), ops[0], rent, m, paid, x)
    ensures Storage(slots, frames, ops, x, KvOf(b.contracts, x))
         == Storage(slots, Frames(slots, frames, ops[0]), ops[1..], x, KvOf(m.contracts, x))
  {}

  /** The verdict on the last transfer of a list. */
  lemma LastVerdict(b: Book, slots: map<Digest, Contract>, frames: seq<Digest>, front: seq<Op>, op: Op, ops: seq<Op>,
                    rent: bool)
    requires frames != [] && ops == front + [op]
    ensures Verdicts(b, slots, frames, ops, rent)
         == Verdicts(b, slots, frames, front, rent) + [Passes(b, slots, frames, front, op, rent)]
  {
    assert ops[..|ops| - 1] == front;
  }

  /** The transfer op, made after the calls of front, is covered. */
  ghost predicate Passes(b: Book, slots: map<Digest, Contract>, frames: seq<Digest>, front: seq<Op>, op: Op, rent: bool)
    requires frames != []
  {
    op.Transfer? && op.amount <= BalanceThen(b, slots, frames, front, rent)
  }

  /** The balance of the innermost frame after the calls of front. */
  ghost function BalanceThen(b: Book, slots: map<Digest, Contract>, frames: seq<Digest>, front: seq<Op>,
                             rent: bool): int
    requires frames != []
  {
    BalanceAfter(b, slots, frames, front, Verdicts(b, slots, frames, front, rent), rent,
                 Payer(FramesAfter(slots, frames, front)))
  }

  /** Later balances and verdicts are those of the rest of the calls on the book m the first one left. */
  ghost predicate Shifts(b: Book, slots: map<Digest, Contract>, frames: seq<Digest>, ops: seq<Op>, rent: bool, m: Book,
                         paid: bool)
    requires frames != [] && ops != []
  {
    var rest, after := ops[1..], Frames(slots, frames, ops[0]);
    && Verdicts(b, slots, frames, ops, rent) == [paid] + Verdicts(m, slots, after, rest, rent)
    && BalanceThen(b, slots, frames, ops, rent) == BalanceThen(m, slots, after, rest, rent)
  }

  lemma ThenShifts(b: Book, slots: map<Digest, Contract>, frames: seq<Digest>, ops: seq<Op>, rent: bool, m: Book,
                   paid: bool)
    requires NoEscrow(slots, frames) && !Over(frames, ops) && Flowed(b, Payer(frames), ops[0], rent, m, paid)
    requires Verdicts(b, slots, frames, ops, rent)
          == [paid] + Verdicts(m, slots, Frames(slots, frames, ops[0]), ops[1..], rent)
    ensures Shifts(b, slots, frames, ops, rent, m, paid)
  {
    var ok := Verdicts(b, slots, frames, ops, rent);
    assert ok[0] == paid && ok[1..] == Verdicts(m, slots, Frames(slots, frames, ops[0]), ops[1..], rent);
    StillNoEscrow(slots, frames, ops);
    var x := Payer(FramesAfter(slots, frames, ops));
    assert FlowsAt(b, Payer(frames), ops[0], rent, m, ok[0], x);
    BalanceShifts(b, slots, frames, ops, ok, rent, m, x);
  }

  lemma FirstVerdict(b: Book, slots: map<Digest, Contract>, frames: seq<Digest>, op: Op, rent: bool, m: Book)
    requires NoEscrow(slots, frames)
    ensures Verdicts(b, slots, frames, [op], rent)
         == [Covered(b, frames, op)] + Verdicts(m, slots, Frames(slots, frames, op), [], rent)
  {
    LastVerdict(b, slots, frames, [], op, [op], rent);
  }

  lemma NextShift(b: Book, slots: map<Digest, Contract>, frames: seq<Digest>, front: seq<Op>, op: Op, ops: seq<Op>,
                  rent: bool, m: Book, paid: bool)
    requires frames != [] && front != [] && ops == front + [op] && Shifts(b, slots, frames, front, rent, m, paid)
    ensures Verdicts(b, slots, frames, ops, rent)
         == [paid] + Verdicts(m, slots, Frames(slots, frames, ops[0]), ops[1..], rent)
  {
    assert ops[1..] == front[1..] + [op];
    AppendVerdict(b, slots, frames, front, op, ops, rent, m, paid, Frames(slots, frames, ops[0]), front[1..], ops[1..]);
  }

  lemma AppendVerdict(b: Book, slots: map<Digest, Contract>, frames: seq<Digest>, front: seq<Op>, op: Op, ops: seq<Op>,
                      rent: bool, m: Book, paid: bool, after: seq<Digest>, middle: seq<Op>, rest: seq<Op>)
    requires frames != [] && after != [] && ops == front + [op] && rest == middle + [op]
    requires Verdicts(b, slots, frames, front, rent) == [paid] + Verdicts(m, slots, after, middle, rent)
    requires BalanceThen(b, slots, frames, front, rent) == BalanceThen(m, slots, after, middle, rent)
    ensures Verdicts(b, slots, frames, ops, rent) == [paid] + Verdicts(m, slots, after, rest, rent)
  {
    LastVerdict(b, slots, frames, front, op, ops, rent);
    LastVerdict(m, slots, after, middle, op, rest, rent);
  }

  lemma {:induction false} VerdictsShift(b: Book, slots: map<Digest, Contract>, frames: seq<Digest>, ops: seq<Op>,
                                         rent: bool, m: Book)
    requires NoEscrow(slots, frames) && !Over(frames, ops)
    requires Flowed(b, Payer(frames), ops[0], rent, m, Covered(b, frames, ops[0]))
    ensures Shifts(b, slots, frames, ops, rent, m, Covered(b, frames, ops[0]))
    decreases |ops|
  {
    var paid := Covered(b, frames, ops[0]);
    if |ops| == 1 {
      assert ops == [ops[0]] && ops[1..] == [];
      FirstVerdict(b, slots, frames, ops[0], rent, m);
    } else {
      var front, op := ops[..|ops| - 1], ops[|ops| - 1];
      VerdictsShift(b, slots, frames, front, rent, m);
      NextShift(b, slots, frames, front, op, ops, rent, m, paid);
    }
    ThenShifts(b, slots, frames, ops, rent, m, paid);
  }

  // ---- whole runs ----

  /** What a completed run leaves at x. */
  ghost predicate LeftAt(b: Book, slots: map<Digest, Contract>, frames: seq<Digest>, ops: seq<Op>, rent: bool, d: Book,
                         x: Digest)
    requires frames != []
  {
    var ok := Verdicts(b, slots, frames, ops, rent);
    && KvOf(d.contracts, x) == Storage(slots, frames, ops, x, KvOf(b.contracts, x))
    && (x != Escrow() ==> Get(d.balances, x) == BalanceAfter(b, slots, frames, ops, ok, rent, x))
  }

  lemma LeftShifts(b: Book, slots: map<Digest, Contract>, frames: seq<Digest>, ops: seq<Op>, rent: bool, m: Book,
                   paid: bool, d: Book, x: Digest)
    requires frames != [] && !Over(frames, ops) && FlowsAt(b, Payer(frames), ops[0], rent, m, paid, x)
    requires Shifts(b, slots, frames, ops, rent, m, paid)
    requires LeftAt(m, slots, Frames(slots, frames, ops[0]), ops[1..], rent, d, x)
    ensures LeftAt(b, slots, frames, ops, rent, d, x)
  {
    var ok := Verdicts(b, slots, frames, ops, rent);
    assert ok[0] == paid && ok[1..] == Verdicts(m, slots, Frames(slots, frames, ops[0]), ops[1..], rent);
    StorageShifts(b, slots, frames, ops, rent, m, paid, x);
    if x != Escrow() {
      BalanceShifts(b, slots, frames, ops, ok, rent, m, x);
    }
  }

  lemma {:induction false} RunLeaves(base: Book, b: Book, frames: seq<Digest>, ops: seq<Op>, rent: bool, d: Book)
    requires Placed(base, b, frames) && Escrow() !in b.contracts && (rent ==> Bonded(b) && Slack(b) >= 0)
    requires RunOn(base, b, frames, ops, rent) == Some(d)
    ensures forall x :: LeftAt(b, base.contracts, frames, ops, rent, d, x)
    ensures Slack(d) == Slack(b) + Received(base.contracts, frames, ops,
                                            Verdicts(b, base.contracts, frames, ops, rent), Escrow())
    decreases |ops|
  {
    var slots := base.contracts;
    if Over(frames, ops) {
      forall x ensures LeftAt(b, slots, frames, ops, rent, d, x) {}
    } else {
      var (m, after) := StepOn(base, b, frames, ops[0], rent).value;
      var paid := Covered(b, frames, ops[0]);
      StepFrames(base, b, frames, ops[0], rent, m, after);
      StepFlows(base, b, frames, ops[0], rent, m, after);
      StepKeeps(base, b, frames, ops[0], rent, m, after);
      RunLeaves(base, m, after, ops[1..], rent, d);
      VerdictsShift(b, slots, frames, ops, rent, m);
      forall x ensures LeftAt(b, slots, frames, ops, rent, d, x) {
        LeftShifts(b, slots, frames, ops, rent, m, paid, d, x);
      }
      var ok := Verdicts(b, slots, frames, ops, rent);
      assert ok[0] == paid && ok[1..] == Verdicts(m, slots, after, ops[1..], rent);
    }
  }

  // ---- when a run traps ----

  /** The run gets to its i-th call. */
  predicate Reaches(slots: map<Digest, Contract>, frames: seq<Digest>, ops: seq<Op>, i: nat)
    requires frames != [] && i <= |ops|
    decreases i
  {
    i == 0 || (!Over(frames, ops) && Reaches(slots, Frames(slots, frames, ops[0]), ops[1..], i - 1))
  }

  /** A call does not trap: no reserved key, a deposit the contract covers, and no call that is too deep or enters
      a contract that is still executing. */
  ghost predicate Allowed(frames: seq<Digest>, op: Op, kv: map<Bytes, Bytes>, balance: int, rent: bool) {
    match op
    case KvSet(key, value) =>
      !IsReservedKey(key) && (rent ==> var grown := |key| + |value| - SizeOf(kv, key);
                                       grown <= 0 || DEPOSIT_PER_BYTE * grown <= balance)
    case KvDel(key) => !IsReservedKey(key)
    case Call(callee) => |frames| < MAX_CALL_DEPTH && callee !in frames
    case Trap => false
    case _ => true
  }

  /** The i-th call of the list does not trap. */
  ghost predicate AllowedAt(b: Book, slots: map<Digest, Contract>, frames: seq<Digest>, ops: seq<Op>, rent: bool,
                            i: nat)
    requires frames != [] && i < |ops|
  {
    var front := ops[..i];
    var stack := FramesAfter(slots, frames, front);
    var a := Payer(stack);
    Allowed(stack, ops[i], Storage(slots, frames, front, a, KvOf(b.contracts, a)),
            BalanceThen(b, slots, frames, front, rent), rent)
  }

  ghost predicate Completes(b: Book, slots: map<Digest, Contract>, frames: seq<Digest>, ops: seq<Op>, rent: bool)
    requires frames != []
  {
    forall i :: 0 <= i < |ops| ==> PassesAt(b, slots, frames, ops, rent, i)
  }

  /** The run does not trap at the i-th call of the list, which it may never get to. */
  ghost predicate PassesAt(b: Book, slots: map<Digest, Contract>, frames: seq<Digest>, ops: seq<Op>, rent: bool, i: nat)
    requires frames != [] && i < |ops|
  {
    Reaches(slots, frames, ops, i) ==> AllowedAt(b, slots, frames, ops, rent, i)
  }

  lemma StepAllowed(base: Book, b: Book, frames: seq<Digest>, op: Op, rent: bool)
    requires Placed(base, b, frames)
    ensures StepOn(base, b, frames, op, rent).Some?
       <==> Allowed(frames, op, KvOf(b.contracts, Payer(frames)), Get(b.balances, Payer(frames)), rent)
  {}

  lemma FirstAllowed(b: Book, slots: map<Digest, Contract>, frames: seq<Digest>, ops: seq<Op>, rent: bool)
    requires frames != [] && ops != []
    ensures AllowedAt(b, slots, frames, ops, rent, 0)
       <==> Allowed(frames, ops[0], KvOf(b.contracts, Payer(frames)), Get(b.balances, Payer(frames)), rent)
  {
    assert ops[..0] == [];
    assert BalanceThen(b, slots, frames, [], rent) == Get(b.balances, Payer(frames));
  }

  lemma NextAllowed(b: Book, slots: map<Digest, Contract>, frames: seq<Digest>, ops: seq<Op>, rent: bool, m: Book,
                    i: nat)
    requires NoEscrow(slots, frames) && !Over(frames, ops) && 0 < i < |ops|
    requires Flowed(b, Payer(frames), ops[0], rent, m, Covered(b, frames, ops[0]))
    ensures AllowedAt(b, slots, frames, ops, rent, i)
       <==> AllowedAt(m, slots, Frames(slots, frames, ops[0]), ops[1..], rent, i - 1)
  {
    var front, after := ops[..i], Frames(slots, frames, ops[0]);
    var a := Payer(FramesAfter(slots, frames, front));
    assert front[1..] == ops[1..][..i - 1];
    VerdictsShift(b, slots, frames, front, rent, m);
    assert FlowsAt(b, Payer(frames), ops[0], rent, m, Covered(b, frames, ops[0]), a);
    StorageShifts(b, slots, frames, front, rent, m, Covered(b, frames, ops[0]), a);
  }

  /** A run goes through exactly when none of the calls it gets to traps. */
  lemma {:induction false} CompletesIff(base: Book, b: Book, frames: seq<Digest>, ops: seq<Op>, rent: bool)
    requires Placed(base, b, frames) && Escrow() !in b.contracts && (rent ==> Bonded(b) && Slack(b) >= 0)
    ensures RunOn(base, b, frames, ops, rent).Some? <==> Completes(b, base.contracts, frames, ops, rent)
    decreases |ops|
  {
    var slots := base.contracts;
    if Over(frames, ops) {
      if ops != [] {
        FirstAllowed(b, slots, frames, ops, rent);
      }
    } else {
      StepAllowed(base, b, frames, ops[0], rent);
      FirstAllowed(b, slots, frames, ops, rent);
      assert PassesAt(b, slots, frames, ops, rent, 0) == AllowedAt(b, slots, frames, ops, rent, 0);
      var s := StepOn(base, b, frames, ops[0], rent);
      if s.Some? {
        var (m, after) := s.value;
        StepFrames(base, b, frames, ops[0], rent, m, after);
        StepFlows(base, b, frames, ops[0], rent, m, after);
        StepKeeps(base, b, frames, ops[0], rent, m, after);
        CompletesIff(base, m, after, ops[1..], rent);
        CompletesShifts(b, slots, frames, ops, rent, m, after);
      }
    }
  }

  lemma CompletesShifts(b: Book, slots: map<Digest, Contract>, frames: seq<Digest>, ops: seq<Op>, rent: bool, m: Book,
                        after: seq<Digest>)
    requires NoEscrow(slots, frames) && !Over(frames, ops) && after == Frames(slots, frames, ops[0])
    requires Flowed(b, Payer(frames), ops[0], rent, m, Covered(b, frames, ops[0]))
    requires AllowedAt(b, slots, frames, ops, rent, 0)
    ensures Completes(b, slots, frames, ops, rent) <==> Completes(m, slots, after, ops[1..], rent)
  {
    var rest := ops[1..];
    assert PassesAt(b, slots, frames, ops, rent, 0);
    if Completes(b, slots, frames, ops, rent) {
      forall j | 0 <= j < |rest| ensures PassesAt(m, slots, after, rest, rent, j) {
        PassShifts(b, slots, frames, ops, rent, m, after, j + 1, j, rest);
      }
    }
    if Completes(m, slots, after, rest, rent) {
      forall i | 0 < i < |ops| ensures PassesAt(b, slots, frames, ops, rent, i) {
        PassShifts(b, slots, frames, ops, rent, m, after, i, i - 1, rest);
      }
    }
  }

  lemma PassShifts(b: Book, slots: map<Digest, Contract>, frames: seq<Digest>, ops: seq<Op>, rent: bool, m: Book,
                   after: seq<Digest>, i: nat, j: nat, rest: seq<Op>)
    requires NoEscrow(slots, frames) && !Over(frames, ops) && after == Frames(slots, frames, ops[0])
    requires Flowed(b, Payer(frames), ops[0], rent, m, Covered(b, frames, ops[0]))
    requires rest == ops[1..] && j < |rest| && i == j + 1
    ensures PassesAt(b, slots, frames, ops, rent, i) == PassesAt(m, slots, after, rest, rent, j)
  {
    NextAllowed(b, slots, frames, ops, rent, m, i);
  }

  // ---- runContract ----

  /** runContract in the terms of its host calls: it goes through exactly when none of the calls it gets to traps;
      then everybody's balance changed by what the covered transfers paid them, minus what they paid as the innermost
      frame, minus the deposit for the bytes their own storage grew by, and each storage is what the writes made of
      it. */
  method Execute(b: Book, self: Digest, ops: seq<Op>, rent: bool) returns (ok: bool, d: Book)
    requires Escrow() !in b.contracts && (rent ==> Bonded(b) && Slack(b) >= 0)
    ensures ok <==> Live(b.contracts, self) && Completes(b, b.contracts, [self], ops, rent)
    ensures ok ==> forall x :: LeftAt(b, b.contracts, [self], ops, rent, d, x)
    ensures ok ==> Slack(d) == Slack(b) + Received(b.contracts, [self], ops,
                                                   Verdicts(b, b.contracts, [self], ops, rent), Escrow())
    ensures !ok ==> d == b
  {
    ok, d := RunContract(b, self, ops, rent);
    if Live(b.contracts, self) {
      CompletesIff(b, b, [self], ops, rent);
    }
    if ok {
      RunLeaves(b, b, [self], ops, rent, d);
    }
  }

  /** One transfer: the contract pays the recipient if it can, and nobody else's balance or storage changes. */
  lemma OneTransfer(b: Book, a: Digest, to: Digest, amount: nat, rent: bool, d: Book)
    requires Live(b.contracts, a) && Escrow() !in b.contracts && (rent ==> Bonded(b) && Slack(b) >= 0)
    requires RunOn(b, b, [a], [Transfer(to, amount)], rent) == Some(d)
    ensures forall x :: x != Escrow() ==>
              var moved := amount <= Get(b.balances, a);
              Get(d.balances, x) == Get(b.balances, x) + (if moved && x == to then amount else 0)
                                    - if moved && x == a then amount else 0
    ensures forall x :: KvOf(d.contracts, x) == KvOf(b.contracts, x)
  {
    var op := Transfer(to, amount);
    RunLeaves(b, b, [a], [op], rent, d);
    var slots, paid := b.contracts, amount <= Get(b.balances, a);
    LastVerdict(b, slots, [a], [], op, [op], rent);
    assert Verdicts(b, slots, [a], [op], rent) == [paid];
    forall x
      ensures KvOf(d.contracts, x) == KvOf(b.contracts, x)
      ensures x != Escrow() ==> Get(d.balances, x) == Get(b.balances, x) + Gains(op, paid, x) - Loses(op, paid, a, x)
    {
      assert LeftAt(b, slots, [a], [op], rent, d, x);
      OnlyTransfer(slots, a, op, paid, x, KvOf(b.contracts, x));
    }
  }

  lemma OnlyTransfer(slots: map<Digest, Contract>, a: Digest, op: Op, paid: bool, x: Digest, kv: map<Bytes, Bytes>)
    requires op.Transfer?
    ensures Received(slots, [a], [op], [paid], x) == Gains(op, paid, x)
    ensures Spent(slots, [a], [op], [paid], x) == Loses(op, paid, a, x)
    ensures Storage(slots, [a], [op], x, kv) == kv
  {
    assert [op][1..] == [] && [paid][1..] == [];
    assert Received(slots, [a], [], [], x) == 0 && Spent(slots, [a], [], [], x) == 0;
    assert Storage(slots, [a], [], x, kv) == kv;
  }
}
