/** The burn-only base fee of ngtypes/feemarket.go, after the Specification section of EIP-1559. */
module FeeMarket {
  import opened Arith

  const MAX_BLOCK_BYTES: nat := 0x80_0000
  const TARGET_BYTES: nat := 0x40_0000
  const MIN_BASE_FEE: nat := 10_000_000_000
  const CHANGE_DENOM: nat := 8

  function ClampMin(x: int): int {
    if x < MIN_BASE_FEE then MIN_BASE_FEE else x
  }

  /** The part of the parent fee that `excess` bytes off target move it by. */
  function Step(parent: nat, excess: nat): nat {
    excess * parent / TARGET_BYTES / CHANGE_DENOM
  }

  /** The base fee a child block must carry; active tells whether the fork is active at the child's height. */
  function NextBaseFee(active: bool, parentFee: int, used: nat): (r: int)
    ensures r >= MIN_BASE_FEE
  {
    if !active then MIN_BASE_FEE
    else
      var parent := if parentFee <= 0 then MIN_BASE_FEE else parentFee;
      if used == TARGET_BYTES then ClampMin(parent)
      else if used > TARGET_BYTES then
        var delta := Step(parent, used - TARGET_BYTES);
        ClampMin(parent + if delta == 0 then 1 else delta)
      else ClampMin(parent - Step(parent, TARGET_BYTES - used))
  }

  lemma StepMono(p: nat, q: nat, x: nat, y: nat)
    requires p <= q && x <= y
    ensures Step(p, x) <= Step(q, y)
  {
    MulMono(x, y, p);
    MulMono(p, q, y);
    assert x * p <= y * p <= y * q by {
      assert p * y == y * p && q * y == y * q;
    }
    DivMono(x * p, y * q, TARGET_BYTES);
    DivMono(x * p / TARGET_BYTES, y * q / TARGET_BYTES, CHANGE_DENOM);
  }

  /** Within the block size cap one step is at most an eighth. */
  lemma StepBound(p: nat, x: nat)
    requires x <= TARGET_BYTES
    ensures CHANGE_DENOM * Step(p, x) <= p
  {
    StepMono(p, p, x, TARGET_BYTES);
    assert TARGET_BYTES * p / TARGET_BYTES == p;
  }

  /** One block moves the fee by at most an eighth of the parent's, and the floor holds. */
  lemma BaseFeeBounds(active: bool, parent: nat, used: nat)
    requires parent >= MIN_BASE_FEE && used <= MAX_BLOCK_BYTES
    ensures NextBaseFee(active, parent, used) >= MIN_BASE_FEE
    ensures active ==> CHANGE_DENOM * NextBaseFee(active, parent, used) <= (CHANGE_DENOM + 1) * parent
    ensures active ==> CHANGE_DENOM * NextBaseFee(active, parent, used) >= (CHANGE_DENOM - 1) * parent
    ensures active && used > TARGET_BYTES ==> NextBaseFee(active, parent, used) > parent
    ensures active && used == TARGET_BYTES ==> NextBaseFee(active, parent, used) == parent
    ensures active && used < TARGET_BYTES ==> NextBaseFee(active, parent, used) <= parent
  {
    StepBound(parent, if used > TARGET_BYTES then used - TARGET_BYTES else TARGET_BYTES - used);
  }

  /** More used bytes never make the next fee smaller. */
  lemma MonotoneInUse(active: bool, parent: int, used: nat, more: nat)
    requires used <= more
    ensures NextBaseFee(active, parent, used) <= NextBaseFee(active, parent, more)
  {
    var p: nat := if parent <= 0 then MIN_BASE_FEE else parent;
    if used > TARGET_BYTES {
      StepMono(p, p, used - TARGET_BYTES, more - TARGET_BYTES);
    } else if more < TARGET_BYTES {
      StepMono(p, p, TARGET_BYTES - more, TARGET_BYTES - used);
    }
  }

  /** Below target the step grows no faster than the fee itself. */
  lemma {:induction false} StepGrowth(p: nat, q: nat, x: nat)
    requires p <= q && x <= TARGET_BYTES
    ensures Step(q, x) - Step(p, x) <= q - p
    decreases q
  {
    if p < q {
      StepGrowth(p, q - 1, x);
      StepOne(q - 1, x);
    }
  }

  lemma StepOne(p: nat, x: nat)
    requires x <= TARGET_BYTES
    ensures Step(p + 1, x) <= Step(p, x) + 1
  {
    assert x * (p + 1) == x * p + x;
    DivMono(x * (p + 1), x * p + TARGET_BYTES, TARGET_BYTES);
    assert (x * p + TARGET_BYTES) / TARGET_BYTES == x * p / TARGET_BYTES + 1;
    DivMono(x * (p + 1) / TARGET_BYTES, x * p / TARGET_BYTES + 1, CHANGE_DENOM);
  }

  /** A higher parent fee never makes the next fee smaller. */
  lemma MonotoneInParent(active: bool, parent: nat, higher: nat, used: nat)
    requires 0 < parent <= higher
    ensures NextBaseFee(active, parent, used) <= NextBaseFee(active, higher, used)
  {
    if used > TARGET_BYTES {
      StepMono(parent, higher, used - TARGET_BYTES, used - TARGET_BYTES);
    } else {
      StepGrowth(parent, higher, TARGET_BYTES - used);
    }
  }

  /** The fee after a run of blocks with the given sizes. */
  function FeeAfter(parent: nat, sizes: seq<nat>): (r: nat) {
    if sizes == [] then parent else NextBaseFee(true, FeeAfter(parent, sizes[..|sizes| - 1]), sizes[|sizes| - 1])
  }

  /** Over n blocks the fee stays between (7/8)^n and (9/8)^n of where it started, and above the floor. */
  lemma {:induction false} FeeRun(parent: nat, sizes: seq<nat>)
    requires parent >= MIN_BASE_FEE && forall i :: 0 <= i < |sizes| ==> sizes[i] <= MAX_BLOCK_BYTES
    ensures FeeAfter(parent, sizes) >= MIN_BASE_FEE
    ensures Pow(8, |sizes|) * FeeAfter(parent, sizes) <= Pow(9, |sizes|) * parent
    ensures Pow(8, |sizes|) * FeeAfter(parent, sizes) >= Pow(7, |sizes|) * parent
  {
    if sizes != [] {
      var n := |sizes| - 1;
      var before := FeeAfter(parent, sizes[..n]);
      FeeRun(parent, sizes[..n]);
      var after := FeeAfter(parent, sizes);
      BaseFeeBounds(true, before, sizes[n]);
      Scale(Pow(8, n), before, after, Pow(9, n), Pow(7, n), parent);
    }
  }

  lemma Scale(c: nat, before: nat, after: nat, hi: nat, lo: nat, parent: nat)
    requires 7 * before <= 8 * after <= 9 * before
    requires lo * parent <= c * before <= hi * parent
    ensures (7 * lo) * parent <= (8 * c) * after <= (9 * hi) * parent
  {
    MulMono(7 * before, 8 * after, c);
    MulMono(8 * after, 9 * before, c);
    assert (8 * c) * after == 8 * after * c;
    assert 7 * before * c == 7 * (c * before) && 9 * before * c == 9 * (c * before);
    assert (7 * lo) * parent == 7 * (lo * parent) && (9 * hi) * parent == 9 * (hi * parent);
  }

  /** A tx as the fee market sees it: a system mint or not, and its encoded length unless it does not encode. */
  datatype SizedTx = SizedTx(generate: bool, encodes: bool, length: nat)

  function Charged(tx: SizedTx): nat {
    if tx.generate || !tx.encodes then 0 else tx.length
  }

  function TotalLength(txs: seq<SizedTx>): nat {
    if txs == [] then 0 else TotalLength(txs[..|txs| - 1]) + txs[|txs| - 1].length
  }

  function UsedBytes(txs: seq<SizedTx>): nat {
    if txs == [] then 0 else UsedBytes(txs[..|txs| - 1]) + Charged(txs[|txs| - 1])
  }

  /** BlockUsedBytes: at most what the block's txs encode to, so a legal block stays in the range of BaseFeeBounds. */
  method BlockUsedBytes(txs: seq<SizedTx>) returns (used: nat)
    ensures used == UsedBytes(txs) <= TotalLength(txs)
  {
    used := 0;
    for i := 0 to |txs|
      invariant used == UsedBytes(txs[..i]) <= TotalLength(txs[..i])
    {
      assert txs[..i + 1][..i] == txs[..i];
      if txs[i].generate {
        continue;
      }
      if !txs[i].encodes {
        continue;
      }
      used := used + txs[i].length;
    }
    assert txs[..|txs|] == txs;
  }

  /** The step is the floor of the excess share of an eighth: excess / TARGET_BYTES of parent / 8. */
  lemma StepExact(p: nat, x: nat)
    ensures TARGET_BYTES * CHANGE_DENOM * Step(p, x) <= x * p < TARGET_BYTES * CHANGE_DENOM * (Step(p, x) + 1)
  {
    var n := x * p;
    var q := n / TARGET_BYTES;
    assert q * TARGET_BYTES <= n < (q + 1) * TARGET_BYTES;
    assert q / 8 * 8 <= q < (q / 8 + 1) * 8;
  }

  /** A full block raises the fee by exactly an eighth, rounded down, and an empty one lowers it by as much, down to
      the floor; a block on target keeps it. In between the move is that share of an eighth. */
  lemma FeeMoves(parent: nat, used: nat)
    requires parent >= MIN_BASE_FEE && used <= MAX_BLOCK_BYTES
    ensures NextBaseFee(true, parent, 0x80_0000) == parent + parent / 8
    ensures var lower := parent - parent / 8;
            NextBaseFee(true, parent, 0) == if lower < MIN_BASE_FEE then MIN_BASE_FEE else lower
    ensures NextBaseFee(true, parent, 0x40_0000) == parent
    ensures used > 0x40_0000 ==>
              var up := NextBaseFee(true, parent, used) - parent;
              up >= 1 && (8 * 0x40_0000 * up <= (used - 0x40_0000) * parent || up == 1)
              && (used - 0x40_0000) * parent < 8 * 0x40_0000 * (up + 1)
    ensures used < 0x40_0000 ==>
              var down := parent - NextBaseFee(true, parent, used);
              8 * 0x40_0000 * down <= (0x40_0000 - used) * parent
              && ((0x40_0000 - used) * parent < 8 * 0x40_0000 * (down + 1) || parent - down == MIN_BASE_FEE)
  {
    FullStep(parent);
    if used > TARGET_BYTES {
      StepExact(parent, used - TARGET_BYTES);
    } else {
      StepExact(parent, TARGET_BYTES - used);
    }
  }

  lemma FullStep(p: nat)
    ensures Step(p, TARGET_BYTES) == p / 8
  {
    assert TARGET_BYTES * p / TARGET_BYTES == p;
  }
}
