/** The generate txs of a block, checked as a set (ngstate/state_check.go). */
module Generates {
  import opened Basics
  import Rewards

  /** A mint: signed for the miner, unsigned for an uncle. verified: the signature holds and pays its own signer. */
  datatype Mint = Mint(to: Digest, value: nat, fee: nat, height: nat, signed: bool, verified: bool)

  datatype Uncle = Uncle(coinbase: Digest, height: nat)

  /** A recipient and an amount. */
  type Claim = (Digest, nat)

  function Signed(ms: seq<Mint>): seq<Mint> {
    if ms == [] then [] else Signed(ms[..|ms| - 1]) + if ms[|ms| - 1].signed then [ms[|ms| - 1]] else []
  }

  function Unsigned(ms: seq<Mint>): seq<Mint> {
    if ms == [] then [] else Unsigned(ms[..|ms| - 1]) + if ms[|ms| - 1].signed then [] else [ms[|ms| - 1]]
  }

  function Claims(ms: seq<Mint>): (r: seq<Claim>)
    ensures |r| == |ms|
  {
    seq(|ms|, i requires 0 <= i < |ms| => (ms[i].to, ms[i].value))
  }

  function Owed(us: seq<Uncle>, height: nat): (r: seq<Claim>)
    ensures |r| == |us|
  {
    seq(|us|, i requires 0 <= i < |us| => (us[i].coinbase, Rewards.UncleReward(us[i].height, height)))
  }

  /** One miner reward to the coinbase, and uncle rewards matching the uncles one to one. */
  ghost predicate Balanced(ms: seq<Mint>, us: seq<Uncle>, coinbase: Digest, height: nat) {
    && |Signed(ms)| == 1
    && PrimaryOk(Signed(ms)[0], coinbase, height)
    && (forall i :: 0 <= i < |Unsigned(ms)| ==> Unsigned(ms)[i].fee == 0 && Unsigned(ms)[i].height == height)
    && multiset(Claims(Unsigned(ms))) == multiset(Owed(us, height))
  }

  predicate PrimaryOk(m: Mint, coinbase: Digest, height: nat) {
    m.to == coinbase && m.fee + m.value == Rewards.BlockReward(height) && m.fee == 0 && m.verified
  }

  /** The counter map of the check: what is still expected. */
  ghost predicate Counts(want: map<Claim, nat>, m: multiset<Claim>) {
    forall k :: m[k] == if k in want then want[k] else 0
  }

  /** The first loop of checkBlockGenerates. */
  method Split(ms: seq<Mint>) returns (primary: Option<Mint>, uncleGens: seq<Mint>, twice: bool)
    ensures twice <==> |Signed(ms)| > 1
    ensures !twice ==> uncleGens == Unsigned(ms)
    ensures !twice ==> Signed(ms) == if primary.Some? then [primary.value] else []
  {
    primary, uncleGens, twice := None, [], false;
    for i := 0 to |ms|
      invariant Signed(ms[..i]) == if primary.Some? then [primary.value] else []
      invariant uncleGens == Unsigned(ms[..i])
    {
      assert ms[..i + 1][..i] == ms[..i];
      if ms[i].signed {
        if primary.Some? {
          SignedGrows(ms, i + 1);
          return primary, uncleGens, true;
        }
        primary := Some(ms[i]);
      } else {
        uncleGens := uncleGens + [ms[i]];
      }
    }
    assert ms[..|ms|] == ms;
  }

  lemma {:induction false} SignedGrows(ms: seq<Mint>, i: nat)
    requires i <= |ms|
    ensures |Signed(ms[..i])| <= |Signed(ms)|
    decreases |ms|
  {
    if i < |ms| {
      var p := ms[..|ms| - 1];
      assert p[..i] == ms[..i];
      SignedGrows(p, i);
    } else {
      assert ms[..i] == ms;
    }
  }

  /** Tallies the uncles' claims. */
  method Tally(owed: seq<Claim>) returns (want: map<Claim, nat>)
    ensures Counts(want, multiset(owed))
  {
    want := map[];
    for i := 0 to |owed|
      invariant Counts(want, multiset(owed[..i]))
    {
      assert owed[..i + 1] == owed[..i] + [owed[i]];
      want := want[owed[i] := (if owed[i] in want then want[owed[i]] else 0) + 1];
    }
    assert owed[..|owed|] == owed;
  }

  /** The count-down loop: every claim must still be expected; it then is expected once less. */
  method CountDown(claims: seq<Claim>, owed: seq<Claim>) returns (ok: bool)
    requires |claims| == |owed|
    ensures ok <==> multiset(claims) == multiset(owed)
  {
    var want := Tally(owed);
    for i := 0 to |claims|
      invariant multiset(claims[..i]) <= multiset(owed)
      invariant Counts(want, multiset(owed) - multiset(claims[..i]))
    {
      assert claims[..i + 1] == claims[..i] + [claims[i]];
      if claims[i] !in want || want[claims[i]] == 0 {
        Overdrawn(claims, owed, i);
        return false;
      }
      want := want[claims[i] := want[claims[i]] - 1];
    }
    assert claims[..|claims|] == claims;
    SameSize(multiset(claims), multiset(owed));
    ok := true;
  }

  lemma Overdrawn(claims: seq<Claim>, owed: seq<Claim>, i: nat)
    requires i < |claims| && multiset(owed)[claims[i]] == multiset(claims[..i])[claims[i]]
    ensures multiset(claims) != multiset(owed)
  {
    assert claims == claims[..i] + [claims[i]] + claims[i + 1..];
    assert multiset(claims)[claims[i]] > multiset(claims[..i])[claims[i]];
  }

  lemma SameSize(a: multiset<Claim>, b: multiset<Claim>)
    requires a <= b && |a| == |b|
    ensures a == b
  {
    assert b == a + (b - a);
    assert |b - a| == 0;
  }

  /** checkBlockGenerates accepts exactly the balanced sets. */
  method CheckBlockGenerates(ms: seq<Mint>, us: seq<Uncle>, coinbase: Digest, height: nat) returns (ok: bool)
    ensures ok <==> Balanced(ms, us, coinbase, height)
  {
    var primary, gens, twice := Split(ms);
    if twice || primary.None? || !PrimaryOk(primary.value, coinbase, height) {
      return false;
    }
    if |gens| != |us| {
      SizesDiffer(gens, us, height);
      return false;
    }
    for i := 0 to |gens|
      invariant forall j :: 0 <= j < i ==> gens[j].fee == 0 && gens[j].height == height
    {
      if gens[i].fee != 0 || gens[i].height != height {
        return false;
      }
    }
    ok := CountDown(Claims(gens), Owed(us, height));
  }

  lemma SizesDiffer(gens: seq<Mint>, us: seq<Uncle>, height: nat)
    requires |gens| != |us|
    ensures multiset(Claims(gens)) != multiset(Owed(us, height))
  {
    assert |multiset(Claims(gens))| == |gens| && |multiset(Owed(us, height))| == |us|;
  }

  // ---- what a balanced set mints ----

  function Minted(ms: seq<Mint>): nat {
    if ms == [] then 0 else Minted(ms[..|ms| - 1]) + ms[|ms| - 1].value
  }

  function Amounts(cs: seq<Claim>): nat {
    if cs == [] then 0 else Amounts(cs[..|cs| - 1]) + cs[|cs| - 1].1
  }

  function UncleRewards(us: seq<Uncle>, height: nat): nat {
    Amounts(Owed(us, height))
  }

  lemma {:induction false} MintedSplits(ms: seq<Mint>)
    ensures Minted(ms) == Minted(Signed(ms)) + Amounts(Claims(Unsigned(ms)))
  {
    if ms != [] {
      var p, m := ms[..|ms| - 1], ms[|ms| - 1];
      MintedSplits(p);
      if m.signed {
        assert Signed(ms)[..|Signed(ms)| - 1] == Signed(p);
        assert Unsigned(ms) == Unsigned(p);
      } else {
        assert Signed(ms) == Signed(p);
        var c := Claims(Unsigned(ms));
        assert Unsigned(ms)[..|Unsigned(ms)| - 1] == Unsigned(p);
        assert c[..|c| - 1] == Claims(Unsigned(p));
      }
    }
  }

  lemma {:induction false} AmountsOut(cs: seq<Claim>, i: nat)
    requires i < |cs|
    ensures Amounts(cs) == Amounts(cs[..i] + cs[i + 1..]) + cs[i].1
    decreases |cs|
  {
    var n := |cs| - 1;
    if i < n {
      AmountsOut(cs[..n], i);
      var rest := cs[..i] + cs[i + 1..];
      assert rest[..|rest| - 1] == cs[..n][..i] + cs[..n][i + 1..];
      assert rest[|rest| - 1] == cs[n];
    } else {
      assert cs[..i] + cs[i + 1..] == cs[..n];
    }
  }

  /** The total of a list of claims depends only on the multiset. */
  lemma {:induction false} AmountsOfMultiset(a: seq<Claim>, b: seq<Claim>)
    requires multiset(a) == multiset(b)
    ensures Amounts(a) == Amounts(b)
    decreases |a|
  {
    if a == [] {
      assert |multiset(b)| == 0;
    } else {
      var n := |a| - 1;
      assert a[n] in multiset(b);
      var i :| 0 <= i < |b| && b[i] == a[n];
      TakeOut(a, n);
      TakeOut(b, i);
      assert a[..n] + a[n + 1..] == a[..n];
      AmountsOfMultiset(a[..n], b[..i] + b[i + 1..]);
      AmountsOut(b, i);
    }
  }

  lemma TakeOut(cs: seq<Claim>, i: nat)
    requires i < |cs|
    ensures multiset(cs[..i] + cs[i + 1..]) == multiset(cs) - multiset{cs[i]}
  {
    assert cs == cs[..i] + [cs[i]] + cs[i + 1..];
    assert multiset(cs) == multiset(cs[..i]) + multiset{cs[i]} + multiset(cs[i + 1..]);
  }

  /** A balanced set mints exactly the block reward and the uncle rewards. */
  lemma BalancedMints(ms: seq<Mint>, us: seq<Uncle>, coinbase: Digest, height: nat)
    requires Balanced(ms, us, coinbase, height)
    ensures Minted(ms) == Rewards.BlockReward(height) + UncleRewards(us, height)
  {
    MintedSplits(ms);
    AmountsOfMultiset(Claims(Unsigned(ms)), Owed(us, height));
    assert Signed(ms)[..0] == [];
  }

  // ---- whom it pays ----

  function MintedTo(ms: seq<Mint>, x: Digest): nat {
    if ms == [] then 0 else MintedTo(ms[..|ms| - 1], x) + if ms[|ms| - 1].to == x then ms[|ms| - 1].value else 0
  }

  function AmountsTo(cs: seq<Claim>, x: Digest): nat {
    if cs == [] then 0 else AmountsTo(cs[..|cs| - 1], x) + if cs[|cs| - 1].0 == x then cs[|cs| - 1].1 else 0
  }

  /** The rewards of the uncles mined by x. */
  function UncleEarned(us: seq<Uncle>, height: nat, x: Digest): nat {
    if us == [] then 0
    else
      var u := us[|us| - 1];
      UncleEarned(us[..|us| - 1], height, x) + if u.coinbase == x then Rewards.UncleReward(u.height, height) else 0
  }

  lemma {:induction false} OwedTo(us: seq<Uncle>, height: nat, x: Digest)
    ensures AmountsTo(Owed(us, height), x) == UncleEarned(us, height, x)
  {
    if us != [] {
      OwedTo(us[..|us| - 1], height, x);
      assert Owed(us, height)[..|us| - 1] == Owed(us[..|us| - 1], height);
    }
  }

  lemma MintedToAppend(ms: seq<Mint>, m: Mint, all: seq<Mint>, x: Digest)
    requires all == ms + [m]
    ensures MintedTo(all, x) == MintedTo(ms, x) + if m.to == x then m.value else 0
  {
    assert all[..|all| - 1] == ms;
  }

  lemma ClaimsAppend(ms: seq<Mint>, m: Mint, all: seq<Mint>, x: Digest)
    requires all == ms + [m]
    ensures AmountsTo(Claims(all), x) == AmountsTo(Claims(ms), x) + if m.to == x then m.value else 0
  {
    assert Claims(all)[..|all| - 1] == Claims(ms);
  }

  lemma {:induction false} MintedToSplits(ms: seq<Mint>, x: Digest)
    ensures MintedTo(ms, x) == MintedTo(Signed(ms), x) + AmountsTo(Claims(Unsigned(ms)), x)
  {
    if ms != [] {
      var p, m := ms[..|ms| - 1], ms[|ms| - 1];
      MintedToSplits(p, x);
      if m.signed {
        MintedToAppend(Signed(p), m, Signed(ms), x);
        assert Unsigned(ms) == Unsigned(p);
      } else {
        ClaimsAppend(Unsigned(p), m, Unsigned(ms), x);
        assert Signed(ms) == Signed(p);
      }
    }
  }

  lemma {:induction false} AmountsToOut(cs: seq<Claim>, i: nat, x: Digest)
    requires i < |cs|
    ensures AmountsTo(cs, x) == AmountsTo(cs[..i] + cs[i + 1..], x) + if cs[i].0 == x then cs[i].1 else 0
    decreases |cs|
  {
    var n := |cs| - 1;
    if i < n {
      AmountsToOut(cs[..n], i, x);
      var rest := cs[..i] + cs[i + 1..];
      assert rest[..|rest| - 1] == cs[..n][..i] + cs[..n][i + 1..];
      assert rest[|rest| - 1] == cs[n];
    } else {
      assert cs[..i] + cs[i + 1..] == cs[..n];
    }
  }

  lemma {:induction false} AmountsToOfMultiset(a: seq<Claim>, b: seq<Claim>, x: Digest)
    requires multiset(a) == multiset(b)
    ensures AmountsTo(a, x) == AmountsTo(b, x)
    decreases |a|
  {
    if a == [] {
      assert |multiset(b)| == 0;
    } else {
      var n := |a| - 1;
      assert a[n] in multiset(b);
      var i :| 0 <= i < |b| && b[i] == a[n];
      TakeOut(a, n);
      TakeOut(b, i);
      assert a[..n] + a[n + 1..] == a[..n];
      AmountsToOfMultiset(a[..n], b[..i] + b[i + 1..], x);
      AmountsToOut(b, i, x);
    }
  }

  /** A balanced set pays the coinbase the block reward, every uncle's miner its uncle reward, and nobody else. */
  lemma BalancedPays(ms: seq<Mint>, us: seq<Uncle>, coinbase: Digest, height: nat, x: Digest)
    requires Balanced(ms, us, coinbase, height)
    ensures MintedTo(ms, x)
         == (if x == coinbase then Rewards.BlockReward(height) else 0) + UncleEarned(us, height, x)
  {
    MintedToSplits(ms, x);
    AmountsToOfMultiset(Claims(Unsigned(ms)), Owed(us, height), x);
    OwedTo(us, height, x);
    assert Signed(ms)[..0] == [];
  }
}
