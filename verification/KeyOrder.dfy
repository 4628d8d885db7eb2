/** bbolt keys: byte-string order, cursor seeks and prefix scans, and the two height encodings of
    ngstate/changeset.go. Little-endian heights are good for prefixes, big-endian ones for seeks. */
module KeyOrder {
  import opened Basics
  import Domains

  /** bytes.Compare(x, y) < 0. */
  predicate Less(x: Bytes, y: Bytes) {
    y != [] && (x == [] || x[0] as int < y[0] as int || (x[0] == y[0] && Less(x[1..], y[1..])))
  }

  lemma ByteInjective(a: bv8, b: bv8)
    requires a as int == b as int
    ensures a == b
  {
    ByteUnique(a, a as int);
    ByteUnique(b, b as int);
  }

  lemma {:induction false} ByteUnique(a: bv8, n: nat)
    requires n < 256 && a as int == n
    ensures a == ByteOf(n)
  {
    if n > 0 {
      assert a >= 1;
      ByteUnique(a - 1, n - 1);
    }
  }

  lemma {:induction false} LessTotal(x: Bytes, y: Bytes)
    ensures Less(x, y) || Less(y, x) || x == y
  {
    if x != [] && y != [] {
      LessTotal(x[1..], y[1..]);
      if x[0] as int == y[0] as int {
        ByteInjective(x[0], y[0]);
        assert x == [x[0]] + x[1..] && y == [y[0]] + y[1..];
      }
    }
  }

  lemma {:induction false} LessIrreflexive(x: Bytes)
    ensures !Less(x, x)
  {
    if x != [] {
      LessIrreflexive(x[1..]);
    }
  }

  lemma {:induction false} LessTransitive(x: Bytes, y: Bytes, z: Bytes)
    requires Less(x, y) && Less(y, z)
    ensures Less(x, z)
  {
    if x != [] && x[0] == y[0] && y[0] == z[0] {
      LessTransitive(x[1..], y[1..], z[1..]);
    }
  }

  predicate LessEq(x: Bytes, y: Bytes) {
    x == y || Less(x, y)
  }

  /** Keys with a common prefix are contiguous in key order. */
  lemma {:induction false} PrefixInterval(p: Bytes, x: Bytes, k: Bytes, y: Bytes)
    requires p <= x && p <= y && LessEq(x, k) && LessEq(k, y)
    ensures p <= k
  {
    if p != [] && k != x && k != y {
      assert x[0] == p[0] == y[0] == k[0];
      PrefixInterval(p[1..], x[1..], k[1..], y[1..]);
      assert p == [p[0]] + p[1..] && k == [k[0]] + k[1..];
    }
  }

  lemma {:induction false} PrefixFirst(p: Bytes, x: Bytes)
    requires p <= x
    ensures LessEq(p, x)
  {
    if p != [] {
      PrefixFirst(p[1..], x[1..]);
      assert p == [p[0]] + p[1..] && x == [x[0]] + x[1..];
    }
  }

  lemma {:induction false} LessCommonPrefix(p: Bytes, x: Bytes, y: Bytes)
    ensures Less(p + x, p + y) <==> Less(x, y)
  {
    if p == [] {
      assert p + x == x && p + y == y;
    } else {
      LessCommonPrefix(p[1..], x, y);
      assert (p + x)[1..] == p[1..] + x && (p + y)[1..] == p[1..] + y;
    }
  }

  // ---- cursors ----

  /** The least key at or above the target. */
  ghost predicate IsSeek(keys: set<Bytes>, target: Bytes, r: Option<Bytes>) {
    match r
    case None => forall k :: k in keys ==> Less(k, target)
    case Some(m) => m in keys && LessEq(target, m) && forall k :: k in keys && Less(k, m) ==> Less(k, target)
  }

  /** Cursor.Seek */
  method Seek(keys: set<Bytes>, target: Bytes) returns (r: Option<Bytes>)
    ensures IsSeek(keys, target, r)
  {
    r := None;
    var todo := keys;
    while todo != {}
      invariant todo <= keys
      invariant IsSeek(keys - todo, target, r)
    {
      var k :| k in todo;
      LessTotal(k, target);
      if !Less(k, target) {
        if r.None? {
          r := Some(k);
          SeekFirst(keys - todo, target, k);
        } else if Less(k, r.value) {
          SeekBetter(keys - todo, target, r.value, k);
          r := Some(k);
        } else {
          LessTotal(k, r.value);
        }
      }
      todo := todo - {k};
      assert forall x :: x in keys - todo <==> x in keys - (todo + {k}) || x == k;
    }
    assert keys - todo == keys;
  }

  lemma SeekFirst(keys: set<Bytes>, target: Bytes, k: Bytes)
    requires IsSeek(keys, target, None) && LessEq(target, k)
    ensures IsSeek(keys + {k}, target, Some(k))
  {
    LessIrreflexive(k);
  }

  lemma SeekBetter(keys: set<Bytes>, target: Bytes, m: Bytes, k: Bytes)
    requires IsSeek(keys, target, Some(m)) && LessEq(target, k) && Less(k, m)
    ensures IsSeek(keys + {k}, target, Some(k))
  {
    LessIrreflexive(k);
    forall x | x in keys && Less(x, k) ensures Less(x, target) {
      LessTransitive(x, k, m);
    }
  }

  // ---- height encodings ----

  function Pow256(n: nat): (r: nat)
    ensures r > 0
  {
    if n == 0 then 1 else 256 * Pow256(n - 1)
  }

  /** 2^64, the number of uint64 heights. */
  const HEIGHTS: nat := 0x1_0000_0000_0000_0000

  lemma HeightsArePow()
    ensures Pow256(8) == HEIGHTS
  {
    assert Pow256(2) == 65536;
    assert Pow256(4) == 256 * (256 * Pow256(2));
    assert Pow256(6) == 256 * (256 * Pow256(4));
    assert Pow256(8) == 256 * (256 * Pow256(6));
  }

  lemma HighDigit(n: nat, p: nat)
    requires p > 0 && n < 256 * p
    ensures n / p < 256 && n % p < p && n == (n / p) * p + n % p
  {
    assert (n / p) * p <= n;
  }

  /** binary.BigEndian.PutUint64 for len bytes. */
  function BigEndian(n: nat, len: nat): (r: Bytes)
    requires n < Pow256(len)
    ensures |r| == len
    decreases len
  {
    if len == 0 then []
    else
      var p := Pow256(len - 1);
      HighDigit(n, p);
      [ByteOf(n / p)] + BigEndian(n % p, len - 1)
  }

  /** Big-endian bytes sort like the numbers. */
  lemma {:induction false} BigEndianOrder(a: nat, b: nat, len: nat)
    requires a < Pow256(len) && b < Pow256(len)
    ensures Less(BigEndian(a, len), BigEndian(b, len)) <==> a < b
    decreases len
  {
    if len > 0 {
      var p := Pow256(len - 1);
      HighDigit(a, p);
      HighDigit(b, p);
      BigEndianOrder(a % p, b % p, len - 1);
      HeadOrder(a, b, p, BigEndian(a % p, len - 1), BigEndian(b % p, len - 1));
    }
  }

  lemma HeadOrder(a: nat, b: nat, p: nat, x: Bytes, y: Bytes)
    requires p > 0 && a < 256 * p && b < 256 * p
    requires a / p < 256 && b / p < 256
    requires Less(x, y) <==> a % p < b % p
    ensures Less([ByteOf(a / p)] + x, [ByteOf(b / p)] + y) <==> a < b
  {
    HighDigit(a, p);
    HighDigit(b, p);
    DigitOrder(a, b, p);
    LessHead(a / p, b / p, x, y);
  }

  lemma LessHead(i: nat, j: nat, x: Bytes, y: Bytes)
    requires i < 256 && j < 256
    ensures Less([ByteOf(i)] + x, [ByteOf(j)] + y) <==> i < j || (i == j && Less(x, y))
  {
    assert ([ByteOf(i)] + x)[1..] == x && ([ByteOf(j)] + y)[1..] == y;
  }

  lemma DigitOrder(a: nat, b: nat, p: nat)
    requires p > 0 && a == (a / p) * p + a % p && b == (b / p) * p + b % p
    ensures a / p < b / p ==> a < b
    ensures a / p > b / p ==> a > b
    ensures a / p == b / p ==> (a < b <==> a % p < b % p)
  {
    if a / p < b / p {
      assert (a / p + 1) * p <= (b / p) * p;
    }
    if a / p > b / p {
      assert (b / p + 1) * p <= (a / p) * p;
    }
  }

  function FromBigEndian(b: Bytes): (r: nat) {
    if b == [] then 0 else (b[0] as int) * Pow256(|b| - 1) + FromBigEndian(b[1..])
  }

  lemma {:induction false} BigEndianRoundTrip(n: nat, len: nat)
    requires n < Pow256(len)
    ensures FromBigEndian(BigEndian(n, len)) == n
    decreases len
  {
    if len > 0 {
      var p := Pow256(len - 1);
      HighDigit(n, p);
      BigEndianRoundTrip(n % p, len - 1);
      assert BigEndian(n, len)[1..] == BigEndian(n % p, len - 1);
    }
  }

  /** utils.PackUint64LE for len bytes. */
  function LittleEndian(n: nat, len: nat): (r: Bytes)
    requires n < Pow256(len)
    ensures |r| == len
    decreases len
  {
    if len == 0 then [] else [ByteOf(n % 256)] + LittleEndian(n / 256, len - 1)
  }

  lemma {:induction false} LittleEndianInjective(a: nat, b: nat, len: nat)
    requires a < Pow256(len) && b < Pow256(len)
    requires LittleEndian(a, len) == LittleEndian(b, len)
    ensures a == b
    decreases len
  {
    if len > 0 {
      var x, y := LittleEndian(a, len), LittleEndian(b, len);
      assert x[0] == ByteOf(a % 256) && y[0] == ByteOf(b % 256);
      assert x[1..] == LittleEndian(a / 256, len - 1) && y[1..] == LittleEndian(b / 256, len - 1);
      LittleEndianInjective(a / 256, b / 256, len - 1);
    }
  }

  // ---- the changeset and history keys ----

  type Height = h: nat | h < HEIGHTS

  /** A uint64 height as eight bytes, in either order. */
  function HeightLE(h: Height): (r: Bytes)
    ensures |r| == 8
  {
    HeightsArePow();
    LittleEndian(h, 8)
  }

  function HeightBE(h: Height): (r: Bytes)
    ensures |r| == 8
  {
    HeightsArePow();
    BigEndian(h, 8)
  }

  lemma HeightLEInjective(a: Height, b: Height)
    requires HeightLE(a) == HeightLE(b)
    ensures a == b
  {
    HeightsArePow();
    LittleEndianInjective(a, b, 8);
  }

  /** csKey: heightLE(8) ‖ addr. */
  function CsKey(h: Height, addr: Digest): (r: Bytes) {
    HeightLE(h) + addr
  }

  /** histKey: addr ‖ heightBE(8). */
  function HistKey(addr: Digest, h: Height): (r: Bytes) {
    addr + HeightBE(h)
  }

  /** A prefix scan over one height yields exactly that height's rows. */
  lemma CsKeyPrefix(h: Height, g: Height, addr: Digest)
    ensures HeightLE(h) <= CsKey(g, addr) <==> g == h
    ensures CsKey(g, addr)[8..] == addr
  {
    assert CsKey(g, addr)[..8] == HeightLE(g);
    if HeightLE(h) <= CsKey(g, addr) {
      assert HeightLE(h) == HeightLE(g);
      HeightLEInjective(h, g);
    }
  }

  lemma HistKeyParts(addr: Digest, h: Height)
    ensures HistKey(addr, h)[..32] == addr && FromBigEndian(HistKey(addr, h)[32..]) == h
  {
    HeightsArePow();
    BigEndianRoundTrip(h, 8);
  }

  ghost predicate Index(keys: set<Bytes>, hist: set<(Digest, nat)>) {
    && (forall x :: x in hist ==> x.1 < HEIGHTS && HistKey(x.0, x.1) in keys)
    && (forall k :: k in keys ==> exists x :: x in hist && x.1 < HEIGHTS && k == HistKey(x.0, x.1))
  }

  /** The least indexed change height at or above from. */
  ghost predicate IsFirstFrom(hist: set<(Digest, nat)>, addr: Digest, from: nat, r: Option<nat>) {
    match r
    case None => forall h: nat :: h >= from ==> (addr, h) !in hist
    case Some(m) => m >= from && (addr, m) in hist && forall h: nat :: from <= h < m ==> (addr, h) !in hist
  }

  /** firstChangeHeightAfter: seek addr ‖ target+1 (a uint64 sum, so it wraps at the very top) and keep
      the hit when it is still the same address. At the largest height the answer is right exactly for an
      address that never changed. */
  method FirstChangeHeightAfter(keys: set<Bytes>, addr: Digest, target: Height, ghost hist: set<(Digest, nat)>)
    returns (r: Option<nat>)
    requires Index(keys, hist)
    ensures IsFirstFrom(hist, addr, if target + 1 < HEIGHTS then target + 1 else 0, r)
    ensures target + 1 < HEIGHTS ==> Domains.IsFirstChange(hist, addr, target, r)
    ensures target + 1 == HEIGHTS ==>
              (Domains.IsFirstChange(hist, addr, target, r) <==> forall h: nat :: (addr, h) !in hist)
  {
    var from: Height := if target + 1 < HEIGHTS then target + 1 else 0;
    var k := Seek(keys, HistKey(addr, from));
    if k.None? || |k.value| != 40 || k.value[..32] != addr {
      SeekMiss(keys, hist, addr, from, k);
      return None;
    }
    ghost var x :| x in hist && x.1 < HEIGHTS && k.value == HistKey(x.0, x.1);
    HistKeyParts(x.0, x.1);
    SeekHit(keys, hist, addr, from, x.1);
    r := Some(FromBigEndian(k.value[32..]));
  }

  /** For instance a change at height 5 is reported as lying above the largest height. */
  method WrapExample(addr: Digest) returns (r: Option<nat>)
    ensures r == Some(5) && !Domains.IsFirstChange({(addr, 5)}, addr, HEIGHTS - 1, r)
  {
    r := FirstChangeHeightAfter({HistKey(addr, 5)}, addr, HEIGHTS - 1, {(addr, 5)});
    assert (addr, 5) in {(addr, 5)};
  }

  lemma HistKeyOrder(addr: Digest, a: Height, b: Height)
    ensures Less(HistKey(addr, a), HistKey(addr, b)) <==> a < b
  {
    HeightsArePow();
    LessCommonPrefix(addr, HeightBE(a), HeightBE(b));
    BigEndianOrder(a, b, 8);
  }

  lemma SeekHit(keys: set<Bytes>, hist: set<(Digest, nat)>, addr: Digest, from: Height, m: Height)
    requires Index(keys, hist) && (addr, m) in hist
    requires IsSeek(keys, HistKey(addr, from), Some(HistKey(addr, m)))
    ensures IsFirstFrom(hist, addr, from, Some(m))
  {
    HistKeyOrder(addr, m, from);
    LessIrreflexive(HistKey(addr, m));
    forall h: nat | from <= h < m ensures (addr, h) !in hist {
      if (addr, h) in hist {
        HistKeyOrder(addr, h, m);
        HistKeyOrder(addr, h, from);
      }
    }
    if m < from {
      SeekNotBelow(keys, HistKey(addr, from), HistKey(addr, m));
    }
  }

  lemma SeekNotBelow(keys: set<Bytes>, target: Bytes, m: Bytes)
    requires IsSeek(keys, target, Some(m))
    ensures !Less(m, target)
  {
    if Less(m, target) {
      if m != target {
        LessTransitive(m, target, m);
      }
      LessIrreflexive(m);
    }
  }

  lemma SeekMiss(keys: set<Bytes>, hist: set<(Digest, nat)>, addr: Digest, from: Height, k: Option<Bytes>)
    requires Index(keys, hist) && IsSeek(keys, HistKey(addr, from), k)
    requires k.None? || |k.value| != 40 || k.value[..32] != addr
    ensures IsFirstFrom(hist, addr, from, None)
  {
    forall h: nat | h >= from ensures (addr, h) !in hist {
      if (addr, h) in hist {
        HistKeyOrder(addr, h, from);
        var key := HistKey(addr, h);
        assert key in keys && !Less(key, HistKey(addr, from));
        if k.Some? {
          var x :| x in hist && x.1 < HEIGHTS && k.value == HistKey(x.0, x.1);
          HistKeyParts(x.0, x.1);
          LessTotal(k.value, key);
          PrefixInterval(addr, HistKey(addr, from), k.value, key);
        }
      }
    }
  }

  // ---- prefix scans ----

  /** revertDomain's cursor loop: seek the prefix, step while it still matches. */
  method ScanPrefix(keys: set<Bytes>, prefix: Bytes) returns (found: seq<Bytes>)
    ensures forall k :: k in found <==> k in keys && prefix <= k
    ensures forall i, j :: 0 <= i < j < |found| ==> found[i] != found[j]
  {
    found := [];
    var rest := keys;
    var k := Seek(rest, prefix);
    while k.Some? && prefix <= k.value
      invariant rest <= keys
      invariant IsSeek(rest, prefix, k)
      invariant forall x :: x in found <==> x in keys - rest
      invariant forall x :: x in found ==> prefix <= x
      invariant forall i, j :: 0 <= i < j < |found| ==> found[i] != found[j]
      decreases rest
    {
      assert k.value !in found;
      found := found + [k.value];
      rest := rest - {k.value};
      k := Seek(rest, prefix);
    }
    forall x | x in rest ensures !(prefix <= x) {
      if prefix <= x {
        PrefixFirst(prefix, x);
        LessIrreflexive(x);
        if Less(x, prefix) {
          SeekNotBelow({x}, prefix, x);
        }
        LessTotal(k.value, x);
        PrefixInterval(prefix, prefix, k.value, x);
      }
    }
  }
}
