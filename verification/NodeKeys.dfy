/** The byte-string store keys of tree nodes (statetrie/statetrie.go) and the positions they name. */
module NodeKeys {
  import opened Basics
  import opened SparseMerkle

  // ---- node keys ----

  /** depth as two big-endian bytes. */
  function DepthBytes(depth: nat): (r: Bytes)
    requires depth <= DEPTH
    ensures |r| == 2
  {
    [ByteOf(depth / 256), ByteOf(depth % 256)]
  }

  /** The mask keeping the top rem bits of a byte. */
  function Mask(rem: nat): bv8
    requires 0 < rem < 8
  {
    match rem
    case 1 => 0x80
    case 2 => 0xc0
    case 3 => 0xe0
    case 4 => 0xf0
    case 5 => 0xf8
    case 6 => 0xfc
    case _ => 0xfe
  }

  lemma MaskBits(x: bv8, rem: nat, k: nat)
    requires 0 < rem < 8 && k < 8
    ensures ByteBit(x & Mask(rem), k) == (k < rem && ByteBit(x, k))
  {
    match rem
    case 1 => case 2 => case 3 => case 4 => case 5 => case 6 => case _ =>
  }

  /** The path with the bits from depth on zeroed. */
  function MaskedPath(depth: nat, path: Digest): (r: Digest)
    requires depth <= DEPTH
  {
    var full, rem := depth / 8, depth % 8;
    if rem == 0 then path[..full] + Zeros(32 - full)
    else path[..full] + [path[full] & Mask(rem)] + Zeros(31 - full)
  }

  /** nodeKey: depth(2B BE) ‖ path with the bits below depth zeroed. */
  function NodeKey(depth: nat, path: Digest): (r: Bytes)
    requires depth <= DEPTH
  {
    DepthBytes(depth) + MaskedPath(depth, path)
  }

  /** The byte with only bit k set. */
  function BitMask(k: nat): bv8
    requires k < 8
  {
    match k
    case 0 => 0x80
    case 1 => 0x40
    case 2 => 0x20
    case 3 => 0x10
    case 4 => 0x08
    case 5 => 0x04
    case 6 => 0x02
    case _ => 0x01
  }

  /** The path with bit f flipped in place. */
  function FlipBit(m: Digest, f: nat): (r: Digest)
    requires f < DEPTH
  {
    m[f / 8 := m[f / 8] ^ BitMask(f % 8)]
  }

  /** siblingKey: nodeKey with bit depth-1 flipped (behind the two depth bytes). */
  function SiblingKey(depth: nat, path: Digest): (r: Bytes)
    requires 0 < depth <= DEPTH
  {
    DepthBytes(depth) + FlipBit(MaskedPath(depth, path), depth - 1)
  }

  /** The tables above are the source's shifts. */
  lemma MasksAreShifts(x: bv8, k: nat)
    requires k < 8
    ensures ByteBit(x, k) == ((x >> (7 - k)) & 1 == 1)
    ensures BitMask(k) == (1 as bv8) << (7 - k)
    ensures 0 < k ==> Mask(k) == (0xff as bv8) << (8 - k)
  {
    match k
    case 0 => case 1 => case 2 => case 3 => case 4 => case 5 => case 6 => case _ =>
  }

  lemma MaskedPathByte(depth: nat, path: Digest, j: nat)
    requires depth <= DEPTH && j < 32
    ensures j < depth / 8 ==> MaskedPath(depth, path)[j] == path[j]
    ensures j == depth / 8 && depth % 8 != 0 ==> MaskedPath(depth, path)[j] == path[j] & Mask(depth % 8)
    ensures j == depth / 8 && depth % 8 == 0 ==> MaskedPath(depth, path)[j] == 0
    ensures j > depth / 8 ==> MaskedPath(depth, path)[j] == 0
  {}

  lemma ZeroBits(k: nat)
    requires k < 8
    ensures !ByteBit(0, k)
  {}

  lemma MaskedPathBit(depth: nat, path: Digest, i: nat)
    requires depth <= DEPTH && i < DEPTH
    ensures Bit(MaskedPath(depth, path), i) == (i < depth && Bit(path, i))
  {
    var full, rem, j, k := depth / 8, depth % 8, i / 8, i % 8;
    MaskedPathByte(depth, path, j);
    ZeroBits(k);
    if j == full && rem != 0 {
      MaskBits(path[j], rem, k);
    }
  }

  lemma FlipBits(x: bv8, k: nat, n: nat)
    requires k < 8 && n < 8
    ensures ByteBit(x ^ BitMask(k), n) == (if n == k then !ByteBit(x, n) else ByteBit(x, n))
  {
    match k
    case 0 => case 1 => case 2 => case 3 => case 4 => case 5 => case 6 => case _ =>
  }

  // ---- keys as positions ----

  /** The prefix padded with zero bits to a full path. */
  function Padded(prefix: Prefix): (r: Digest)
    ensures forall i :: 0 <= i < DEPTH ==> Bit(r, i) == (i < |prefix| && prefix[i])
  {
    var bits := prefix + seq(DEPTH - |prefix|, _ => false);
    BitsPack(bits);
    assert forall i :: 0 <= i < DEPTH ==> Bit(Pack(bits), i) == Bits(Pack(bits))[i];
    Pack(bits)
  }

  lemma PaddedUnique(m: Digest, p: Prefix)
    requires forall i :: 0 <= i < DEPTH ==> Bit(m, i) == (i < |p| && p[i])
    ensures m == Padded(p)
  {
    SameBits(m, Padded(p));
  }

  /** The store key of the node at a position. */
  function KeyOf(prefix: Prefix): (r: Bytes) {
    DepthBytes(|prefix|) + Padded(prefix)
  }

  lemma DepthBytesInjective(d: nat, e: nat)
    requires d <= DEPTH && e <= DEPTH && DepthBytes(d) == DepthBytes(e)
    ensures d == e
  {
    assert ByteOf(d / 256) == DepthBytes(d)[0] == DepthBytes(e)[0] == ByteOf(e / 256);
    assert ByteOf(d % 256) == DepthBytes(d)[1] == DepthBytes(e)[1] == ByteOf(e % 256);
  }

  /** No two positions share a store key. */
  lemma KeyOfInjective(p: Prefix, q: Prefix)
    requires KeyOf(p) == KeyOf(q)
    ensures p == q
  {
    assert KeyOf(p)[..2] == DepthBytes(|p|) && KeyOf(q)[..2] == DepthBytes(|q|);
    DepthBytesInjective(|p|, |q|);
    assert KeyOf(p)[2..] == Padded(p) && KeyOf(q)[2..] == Padded(q);
    forall i | 0 <= i < |p| ensures p[i] == q[i] {
      assert Bit(Padded(p), i) == Bit(Padded(q), i);
    }
  }

  /** nodeKey names the position of the first depth bits of the path. */
  lemma NodeKeyIsPosition(depth: nat, path: Digest)
    requires depth <= DEPTH
    ensures NodeKey(depth, path) == KeyOf(Bits(path)[..depth])
  {
    var prefix: Prefix := Bits(path)[..depth];
    forall i | 0 <= i < DEPTH ensures Bit(MaskedPath(depth, path), i) == (i < |prefix| && prefix[i]) {
      MaskedPathBit(depth, path, i);
      if i < depth {
        assert Bits(path)[i] == Bit(path, i);
      }
    }
    PaddedUnique(MaskedPath(depth, path), prefix);
  }

  lemma FlipOneBit(m: Digest, f: nat, i: nat)
    requires f < DEPTH && i < DEPTH
    ensures Bit(FlipBit(m, f), i) == (if i == f then !Bit(m, i) else Bit(m, i))
  {
    if i / 8 == f / 8 {
      FlipBits(m[f / 8], f % 8, i % 8);
    }
  }

  lemma FlippedMaskBit(depth: nat, path: Digest, m: Digest, i: nat)
    requires 0 < depth <= DEPTH && i < DEPTH && m == MaskedPath(depth, path)
    ensures Bit(FlipBit(m, depth - 1), i) == (i < depth && if i == depth - 1 then !Bit(path, i) else Bit(path, i))
  {
    MaskedPathBit(depth, path, i);
    FlipOneBit(m, depth - 1, i);
  }

  lemma SiblingBit(path: Digest, depth: nat, i: nat)
    requires 0 < depth <= DEPTH && i < depth
    ensures Sibling(Bits(path)[..depth])[i] == if i == depth - 1 then !Bit(path, i) else Bit(path, i)
  {
    assert Bits(path)[i] == Bit(path, i);
  }

  lemma FlippedMask(depth: nat, path: Digest)
    requires 0 < depth <= DEPTH
    ensures FlipBit(MaskedPath(depth, path), depth - 1) == Padded(Sibling(Bits(path)[..depth]))
  {
    var m, sib := FlipBit(MaskedPath(depth, path), depth - 1), Sibling(Bits(path)[..depth]);
    forall i | 0 <= i < DEPTH ensures Bit(m, i) == (i < |sib| && sib[i]) {
      FlippedMaskBit(depth, path, MaskedPath(depth, path), i);
      if i < depth {
        SiblingBit(path, depth, i);
      }
    }
    PaddedUnique(m, sib);
  }

  /** siblingKey names the sibling position. */
  lemma SiblingKeyIsPosition(depth: nat, path: Digest)
    requires 0 < depth <= DEPTH
    ensures SiblingKey(depth, path) == KeyOf(Sibling(Bits(path)[..depth]))
  {
    FlippedMask(depth, path);
  }
}
