/** The per-block difficulty retarget of ngtypes/difficulty.go. */
module Difficulty {
  import opened Basics
  import opened Arith

  const TARGET_MS: nat := 4000

  const TWO63: int := 0x8000_0000_0000_0000
  const TWO64: int := 0x1_0000_0000_0000_0000

  /** A uint64, as the timestamps and heights are. */
  type Word = n: nat | n < TWO64

  /** int64 arithmetic: the value in [-2^63, 2^63) that is equal modulo 2^64. */
  function Wrap(x: int): (r: int)
    ensures -TWO63 <= r < TWO63
  {
    (x + TWO63) % TWO64 - TWO63
  }

  lemma Wrapped(x: int) returns (k: int)
    ensures Wrap(x) == x - k * TWO64
  {
    k := (x + TWO63) / TWO64;
  }

  lemma WrapUnique(x: int, y: int, k: int)
    requires y == x - k * TWO64 && -TWO63 <= y < TWO63
    ensures Wrap(x) == y
  {
    assert (x + TWO63) - k * TWO64 == y + TWO63;
    assert (x + TWO63) % TWO64 == y + TWO63;
  }

  function Clamp(f: int): (r: int)
    ensures -99 * TARGET_MS <= r <= TARGET_MS
  {
    if f > TARGET_MS then TARGET_MS else if f < -99 * TARGET_MS then -99 * TARGET_MS else f
  }

  /** target - d clamped to [-99 target, target], all in int64. */
  function Factor(blockTime: Word, parentTime: Word): (f: int)
    ensures -99 * TARGET_MS <= f <= TARGET_MS
  {
    var d := Wrap(Wrap(blockTime) - Wrap(parentTime));
    Clamp(Wrap(TARGET_MS - d))
  }

  /** No int64 on the way to the factor leaves its range. */
  predicate InRange(blockTime: Word, parentTime: Word) {
    -TWO63 <= TARGET_MS - (blockTime - parentTime) < TWO63
  }

  /** The wrapped operations add up to one wrap. */
  lemma WrappedOnce(blockTime: Word, parentTime: Word)
    ensures Factor(blockTime, parentTime) == Clamp(Wrap(TARGET_MS - (blockTime - parentTime)))
  {
    var i := Wrapped(blockTime);
    var j := Wrapped(parentTime);
    var k := Wrapped(Wrap(blockTime) - Wrap(parentTime));
    var d := Wrap(Wrap(blockTime) - Wrap(parentTime));
    var l := Wrapped(TARGET_MS - d);
    var n := l - k - i + j;
    assert n * TWO64 == l * TWO64 - k * TWO64 - i * TWO64 + j * TWO64;
    WrapUnique(TARGET_MS - (blockTime - parentTime), Wrap(TARGET_MS - d), n);
  }

  /** The factor is the intended one if and only if nothing wrapped: a difference of more than half the uint64
      range comes out on the wrong side. */
  lemma FactorExactIff(blockTime: Word, parentTime: Word)
    ensures Factor(blockTime, parentTime) == Clamp(TARGET_MS - (blockTime - parentTime))
            <==> InRange(blockTime, parentTime)
  {
    var f := TARGET_MS - (blockTime - parentTime);
    WrappedOnce(blockTime, parentTime);
    if InRange(blockTime, parentTime) {
      WrapUnique(f, f, 0);
    } else if f < 0 {
      WrapUnique(f, f + TWO64, -1);
    } else {
      WrapUnique(f, f - TWO64, 1);
    }
  }

  /** The proportional step, before the height bump and the floor. */
  function Retargeted(parentDiff: nat, blockTime: Word, parentTime: Word): int {
    parentDiff + Quo(parentDiff * Factor(blockTime, parentTime), 2048 * TARGET_MS)
  }

  /** 2^(height/100k - 2), zero before height 200000, and zero where the height is negative as an int64. */
  function Bump(height: Word): nat {
    if height >= TWO63 || height / 100_000 < 2 then 0 else Pow(2, height / 100_000 - 2)
  }

  /** None is the panic on a parent from before the network's genesis. */
  function GetNextDiff(height: Word, blockTime: Word, parentDiff: nat, parentTime: Word, genesis: Word, minimum: nat)
    : (r: Option<nat>)
    ensures r.None? <==> parentTime < genesis
    ensures r.Some? ==> r.value >= minimum
  {
    if parentTime < genesis then None
    else
      var diff := Retargeted(parentDiff, blockTime, parentTime) + Bump(height);
      Some(if diff < minimum then minimum else diff)
  }

  lemma ProductBounds(diff: nat, f: int)
    requires -99 * TARGET_MS <= f <= TARGET_MS
    ensures -99 * TARGET_MS * diff <= diff * f <= TARGET_MS * diff
  {
    MulMono(f, TARGET_MS, diff);
    MulMono(-99 * TARGET_MS, f, diff);
    assert f * diff == diff * f;
  }

  lemma QuoBounds(x: int, diff: nat)
    requires -99 * TARGET_MS * diff <= x <= TARGET_MS * diff
    ensures 2048 * Quo(x, 2048 * TARGET_MS) <= diff
    ensures -2048 * Quo(x, 2048 * TARGET_MS) <= 99 * diff
  {
    var q := Quo(x, 2048 * TARGET_MS);
    if x >= 0 {
      assert q * (2048 * TARGET_MS) <= x;
    } else {
      assert -q * (2048 * TARGET_MS) <= -x;
    }
  }

  /** One block moves the difficulty by at most +1/2048 and -99/2048 of the parent's, whatever the timestamps. */
  lemma RetargetBounds(parentDiff: nat, blockTime: Word, parentTime: Word)
    ensures 2048 * (Retargeted(parentDiff, blockTime, parentTime) - parentDiff) <= parentDiff
    ensures 2048 * (parentDiff - Retargeted(parentDiff, blockTime, parentTime)) <= 99 * parentDiff
    ensures Retargeted(parentDiff, blockTime, parentTime) >= 0
    ensures blockTime - parentTime == TARGET_MS ==> Retargeted(parentDiff, blockTime, parentTime) == parentDiff
  {
    var f := Factor(blockTime, parentTime);
    FactorExactIff(blockTime, parentTime);
    ProductBounds(parentDiff, f);
    QuoBounds(parentDiff * f, parentDiff);
  }

  lemma StepMono(parentDiff: nat, f: int, g: int)
    requires f <= g
    ensures Quo(parentDiff * f, 2048 * TARGET_MS) <= Quo(parentDiff * g, 2048 * TARGET_MS)
  {
    MulMono(f, g, parentDiff);
    assert f * parentDiff == parentDiff * f && g * parentDiff == parentDiff * g;
    QuoMono(parentDiff * f, parentDiff * g, 2048 * TARGET_MS);
  }

  /** A later block time never gives a higher difficulty, through the bump and the floor, as long as nothing wraps. */
  lemma Antitone(height: Word, early: Word, late: Word, parentDiff: nat, parentTime: Word, genesis: Word, minimum: nat)
    requires early <= late && InRange(early, parentTime) && InRange(late, parentTime) && genesis <= parentTime
    ensures Retargeted(parentDiff, late, parentTime) <= Retargeted(parentDiff, early, parentTime)
    ensures GetNextDiff(height, late, parentDiff, parentTime, genesis, minimum).value
         <= GetNextDiff(height, early, parentDiff, parentTime, genesis, minimum).value
  {
    FactorExactIff(early, parentTime);
    FactorExactIff(late, parentTime);
    StepMono(parentDiff, Factor(late, parentTime), Factor(early, parentTime));
  }

  /** Past the wrap it fails: on a parent of the genesis time, a block stamped more than 2^63 later is given a higher
      difficulty than one stamped a minute later. An uncle's time is bounded from below only, so such a time
      reaches the retarget through validateUncles. */
  lemma LateRaises(height: Word, genesis: Word, early: Word, late: Word, minimum: nat)
    requires genesis == 1_603_497_600_000 && early == genesis + 60_000 && late == early + TWO63 && minimum <= 990_000
    ensures !InRange(late, genesis)
    ensures GetNextDiff(height, late, 1_000_000, genesis, genesis, minimum).value
          > 1_000_000 + Bump(height) > GetNextDiff(height, early, 1_000_000, genesis, genesis, minimum).value
  {
    WrappedOnce(late, genesis);
    WrappedOnce(early, genesis);
    WrapUnique(TARGET_MS - (late - genesis), TARGET_MS - (late - genesis) + TWO64, -1);
    WrapUnique(TARGET_MS - (early - genesis), TARGET_MS - (early - genesis), 0);
    assert Factor(late, genesis) == TARGET_MS && Factor(early, genesis) == -56_000;
    assert 1_000_000 * TARGET_MS == 4_000_000_000 && 1_000_000 * (-56_000) == -56_000_000_000;
  }

  /** The bump is one from height 200000 on and doubles every 100000 blocks. */
  lemma BumpDoubles(height: Word)
    ensures height < 200_000 ==> Bump(height) == 0
    ensures 200_000 <= height < 300_000 ==> Bump(height) == 1
    ensures 200_000 <= height && height + 100_000 < TWO63 ==> Bump(height + 100_000) == 2 * Bump(height)
  {
    if 200_000 <= height && height + 100_000 < TWO63 {
      assert (height + 100_000) / 100_000 == height / 100_000 + 1;
    }
  }

  /** The step is the product of parent difficulty and factor over 2048 targets, rounded towards zero. */
  lemma RetargetExact(parentDiff: nat, blockTime: Word, parentTime: Word)
    ensures var step, share := Retargeted(parentDiff, blockTime, parentTime) - parentDiff,
                               parentDiff * Factor(blockTime, parentTime);
            && (share >= 0 ==> step * (2048 * 4000) <= share < (step + 1) * (2048 * 4000))
            && (share <= 0 ==> (step - 1) * (2048 * 4000) < share <= step * (2048 * 4000))
  {
    QuoExact(parentDiff * Factor(blockTime, parentTime));
  }

  const SCALE: nat := 2048 * TARGET_MS

  lemma QuoExact(x: int)
    ensures x >= 0 ==> Quo(x, SCALE) * SCALE <= x < (Quo(x, SCALE) + 1) * SCALE
    ensures x <= 0 ==> (Quo(x, SCALE) - 1) * SCALE < x <= Quo(x, SCALE) * SCALE
  {}
}
