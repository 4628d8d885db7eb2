/** Shared vocabulary: byte strings, optional values and the 32-byte hash function. */
module Basics {

  type Bytes = seq<bv8>

  datatype Option<+T> = None | Some(value: T)

  /** utils.Hash256 (BLAKE3-256). Nothing is assumed about it beyond its output length. */
  type Hasher = Bytes -> Digest

  /** A 32-byte string: a hash, a leaf path, an address. */
  type Digest = b: Bytes | |b| == 32 witness Zeros(32)

  function Zeros(n: nat): (r: Bytes) {
    seq(n, _ => 0)
  }

  predicate IsZero(b: Bytes) {
    forall i :: 0 <= i < |b| ==> b[i] == 0
  }

  /** A number below 256 as a byte. */
  function ByteOf(n: nat): (r: bv8)
    requires n < 256
    ensures r as int == n
  {
    if n == 0 then 0
    else var q := ByteOf(n - 1); assert q < 255; q + 1
  }

  /** These two byte strings are a collision of the hash function. */
  predicate Collides(H: Hasher, x: Bytes, y: Bytes) {
    x != y && H(x) == H(y)
  }

  function Lookup<K, V>(m: map<K, V>, k: K): (r: Option<V>) {
    if k in m then Some(m[k]) else None
  }

  /** Puts the value under the key, or deletes the key when there is none. */
  function Assign<K(!new), V>(m: map<K, V>, k: K, v: Option<V>): (r: map<K, V>)
    ensures forall x :: Lookup(r, x) == if x == k then v else Lookup(m, x)
  {
    if v.Some? then m[k := v.value] else m - {k}
  }

  lemma SameLookups<K(!new), V>(m: map<K, V>, n: map<K, V>)
    requires forall k :: Lookup(m, k) == Lookup(n, k)
    ensures m == n
  {
    forall k ensures k in m <==> k in n {
      assert Lookup(m, k) == Lookup(n, k);
    }
    forall k | k in m ensures m[k] == n[k] {
      assert Lookup(m, k) == Lookup(n, k);
    }
  }

  /** Invariants that callers carry around unopened. */
  datatype Sealed =
    | NODES | LEAVES | CHAIN | FULL | DEPS | DID | BLOCK | RUN | CODE | STAND | UNDONE | READY | STEP | FATE

  /** Always true. A sealed predicate is a quantifier triggered by this; asserting it opens the predicate. */
  ghost predicate Opened(what: Sealed, seal: bool) {
    true
  }
}
