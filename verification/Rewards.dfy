/** The block reward curve of ngtypes/reward_curve.go. */
module Rewards {
  import opened Arith

  const NG: nat := 1_000_000_000_000_000_000
  const REWARD_ERA: nat := 1_000_000
  const UNCLE_DEPTH: nat := 30

  /** The floating part after a number of eras, each taking off a tenth, rounded down. */
  function Floating(era: nat): nat {
    if era == 0 then 8 * NG else Floating(era - 1) - Floating(era - 1) / 10
  }

  function BlockReward(height: nat): nat {
    Floating(height / REWARD_ERA) + 2 * NG
  }

  /** GetBlockReward */
  method GetBlockReward(height: nat) returns (reward: nat)
    ensures reward == BlockReward(height)
  {
    reward := 8 * NG;
    var era := height / REWARD_ERA;
    for i := 0 to era
      invariant reward == Floating(i)
    {
      var d := reward / 10;
      reward := reward - d;
    }
    reward := reward + 2 * NG;
  }

  lemma {:induction false} FloatingShrinks(era: nat, later: nat)
    requires era <= later
    ensures Floating(later) <= Floating(era)
    decreases later
  {
    if era < later {
      FloatingShrinks(era, later - 1);
    }
  }

  /** The reward stays within [2 NG, 10 NG] and never grows. */
  lemma RewardCurve(height: nat, later: nat)
    requires height <= later
    ensures 2 * NG <= BlockReward(later) <= BlockReward(height) <= 10 * NG
  {
    DivMono(height, later, REWARD_ERA);
    FloatingShrinks(height / REWARD_ERA, later / REWARD_ERA);
    FloatingShrinks(0, height / REWARD_ERA);
  }

  /** Integer rounding never strays more than nine units from 8 NG * 0.9^era, and never below it. */
  lemma {:induction false} DocumentedCurve(era: nat)
    ensures Pow(9, era) * (8 * NG) <= Pow(10, era) * Floating(era) <= Pow(9, era) * (8 * NG) + 9 * Pow(10, era)
  {
    if era > 0 {
      DocumentedCurve(era - 1);
      var f, g := Floating(era - 1), Floating(era);
      assert 9 * f <= 10 * g <= 9 * f + 9;
      OneEra(Pow(9, era - 1), Pow(10, era - 1), f, g);
    }
  }

  lemma OneEra(p: nat, c: nat, f: nat, g: nat)
    requires p * (8 * NG) <= c * f <= p * (8 * NG) + 9 * c
    requires 9 * f <= 10 * g <= 9 * f + 9
    ensures (9 * p) * (8 * NG) <= (10 * c) * g <= (9 * p) * (8 * NG) + 9 * (10 * c)
  {
    MulMono(9 * f, 10 * g, c);
    MulMono(10 * g, 9 * f + 9, c);
    Rearrange(c, f, g);
  }

  lemma Rearrange(c: nat, f: nat, g: nat)
    ensures 10 * g * c == (10 * c) * g && 9 * f * c == 9 * (c * f) && (9 * f + 9) * c == 9 * (c * f) + 9 * c
  {}

  /** m of the depth-plus-one parts of r. */
  function Share(r: nat, m: nat): nat {
    MulMono(0, r, m);
    r * m / (UNCLE_DEPTH + 1)
  }

  /** UncleReward: the uncle's own block reward, decayed linearly with the distance to the nephew. */
  function UncleReward(uncle: nat, nephew: nat): nat {
    if nephew <= uncle || nephew - uncle > UNCLE_DEPTH then 0
    else Share(BlockReward(uncle), UNCLE_DEPTH + 1 - (nephew - uncle))
  }

  /** It pays exactly within the referenceable depth, always less than the block reward itself, and less the
      further away the nephew. */
  lemma UncleRewardDecays(uncle: nat, nephew: nat, later: nat)
    requires uncle < nephew <= later
    ensures UncleReward(uncle, later) <= UncleReward(uncle, nephew) < BlockReward(uncle)
    ensures UncleReward(uncle, nephew) > 0 <==> nephew - uncle <= UNCLE_DEPTH
  {
    RewardCurve(uncle, uncle);
    var r := BlockReward(uncle);
    if nephew - uncle <= UNCLE_DEPTH {
      var m := UNCLE_DEPTH + 1 - (nephew - uncle);
      MulMono(1, m, r);
      MulMono(m, UNCLE_DEPTH, r);
      assert r * m == m * r;
      DivMono(r * m, UNCLE_DEPTH * r, UNCLE_DEPTH + 1);
      DivMono(r, r * m, UNCLE_DEPTH + 1);
      if later - uncle <= UNCLE_DEPTH {
        var n := UNCLE_DEPTH + 1 - (later - uncle);
        MulMono(n, m, r);
        assert r * n == n * r;
        DivMono(r * n, r * m, UNCLE_DEPTH + 1);
      }
    }
  }

  /** The curve of the documentation, on the reward itself: 2 NG plus 8 NG * 0.9^era, era being the number of whole
      millions of blocks, within nine units. */
  lemma RewardOnCurve(height: nat, era: nat)
    requires era * 1_000_000 <= height < (era + 1) * 1_000_000
    ensures BlockReward(height) >= 2 * NG
    ensures var above := BlockReward(height) - 2 * NG;
            Pow(9, era) * (8 * NG) <= Pow(10, era) * above <= Pow(9, era) * (8 * NG) + 9 * Pow(10, era)
  {
    EraOf(height, era);
    DocumentedCurve(era);
  }

  lemma EraOf(height: nat, era: nat)
    requires era * 1_000_000 <= height < (era + 1) * 1_000_000
    ensures height / REWARD_ERA == era
  {}

  /** The uncle reward is the share of the uncle's own block reward, rounded down. */
  lemma UncleShare(uncle: nat, nephew: nat)
    requires uncle < nephew <= uncle + 30
    ensures 31 * UncleReward(uncle, nephew) <= BlockReward(uncle) * (31 - (nephew - uncle))
                                             < 31 * (UncleReward(uncle, nephew) + 1)
  {
    var x := BlockReward(uncle) * (31 - (nephew - uncle));
    assert x / 31 * 31 <= x < (x / 31 + 1) * 31;
  }
}
