/** The randomness beacon's accumulation hash (ngstate/beacon.go). */
module Beacon {
  import opened Basics
  import opened KeyOrder

  /** "ngcore/randao" */
  const BEACON_DOMAIN: Bytes := [0x6e, 0x67, 0x63, 0x6f, 0x72, 0x65, 0x2f, 0x72, 0x61, 0x6e, 0x64, 0x61, 0x6f]

  /** The reveal salts of a block in tx order. */
  function Folded(salts: seq<Bytes>): (r: Bytes) {
    if salts == [] then [] else Folded(salts[..|salts| - 1]) + salts[|salts| - 1]
  }

  method Fold(salts: seq<Bytes>) returns (r: Bytes)
    ensures r == Folded(salts)
  {
    r := [];
    for i := 0 to |salts|
      invariant r == Folded(salts[..i])
    {
      assert salts[..i + 1][..i] == salts[..i];
      if |salts[i]| != 0 {
        r := r + salts[i];
      } else {
        assert r + salts[i] == r;
      }
    }
    assert salts[..|salts|] == salts;
  }

  function Preimage(prev: Digest, prevHash: Digest, saltsHash: Digest, height: Height): (r: Bytes) {
    BEACON_DOMAIN + prev + prevHash + saltsHash + HeightLE(height)
  }

  function Seed(H: Hasher, prev: Digest, prevHash: Digest, salts: seq<Bytes>, height: Height): (r: Digest) {
    H(Preimage(prev, prevHash, H(Folded(salts)), height))
  }

  /** The fields of the preimage sit at fixed offsets. */
  lemma PreimageParts(p: Digest, a: Digest, s: Digest, h: Height, x: Bytes)
    requires x == Preimage(p, a, s, h)
    ensures |x| == 117 && x[13..45] == p && x[45..77] == a && x[77..109] == s && x[109..] == HeightLE(h)
  {
    assert x == BEACON_DOMAIN + p + a + s + HeightLE(h) && |BEACON_DOMAIN| == 13;
  }

  lemma PreimageInjective(p: Digest, q: Digest, a: Digest, b: Digest, s: Digest, r: Digest, h: Height, g: Height)
    requires Preimage(p, a, s, h) == Preimage(q, b, r, g)
    ensures p == q && a == b && s == r && h == g
  {
    var x := Preimage(p, a, s, h);
    PreimageParts(p, a, s, h, x);
    PreimageParts(q, b, r, g, x);
    HeightLEInjective(h, g);
  }

  /** One seed stands for one history: equal seeds come from the same previous seed, parent, salts and height,
      unless the two preimages collide, or the two salt strings do. */
  lemma SeedBinds(H: Hasher, p: Digest, q: Digest, a: Digest, b: Digest, s: seq<Bytes>, r: seq<Bytes>, h: Height,
                  g: Height)
    requires Seed(H, p, a, s, h) == Seed(H, q, b, r, g)
    ensures || (p == q && a == b && Folded(s) == Folded(r) && h == g)
            || Collides(H, Preimage(p, a, H(Folded(s)), h), Preimage(q, b, H(Folded(r)), g))
            || Collides(H, Folded(s), Folded(r))
  {
    if Preimage(p, a, H(Folded(s)), h) == Preimage(q, b, H(Folded(r)), g) {
      PreimageInjective(p, q, a, b, H(Folded(s)), H(Folded(r)), h, g);
    }
  }

  /** The total length of the first i salts. */
  function Offset(salts: seq<Bytes>, i: nat): (r: nat)
    requires i <= |salts|
  {
    if i == 0 then 0 else Offset(salts, i - 1) + |salts[i - 1]|
  }

  lemma {:induction false} OffsetOfFront(salts: seq<Bytes>, n: nat, i: nat)
    requires i <= n <= |salts|
    ensures Offset(salts[..n], i) == Offset(salts, i)
  {
    if i > 0 {
      OffsetOfFront(salts, n, i - 1);
    }
  }

  /** Each salt sits in the folded string right after the ones before it, and nothing else is in there. */
  lemma {:induction false} FoldedAt(salts: seq<Bytes>, i: nat)
    requires i < |salts|
    ensures |Folded(salts)| == Offset(salts, |salts|) && Offset(salts, i) + |salts[i]| <= |Folded(salts)|
    ensures Folded(salts)[Offset(salts, i)..Offset(salts, i) + |salts[i]|] == salts[i]
    decreases |salts|
  {
    var n: nat := |salts| - 1;
    var front := salts[..n];
    OffsetOfFront(salts, n, n);
    OffsetOfFront(salts, n, i);
    if n == 0 {
      assert front == [] && Folded(front) == [];
    } else {
      FoldedAt(front, if i < n then i else 0);
    }
  }
}
