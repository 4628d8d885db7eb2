/** lightclient/verify.go: folding a served state proof back into a trusted header's state root. */
module LightClient {
  import opened Basics
  import opened SparseMerkle
  import NodeStore

  datatype Header = Header(stateRoot: Bytes, hash: Bytes)

  datatype Response = Response(
    stateRoot: Bytes, blockHash: Bytes, path: Bytes, found: bool,
    value: Bytes, valueHash: Bytes, proof: seq<Bytes>)

  /** VerifyProof: the proven value (None for a verified absence), or Fail. */
  datatype Verdict = Fail | Proven(value: Option<Bytes>)

  method VerifyProof(H: Hasher, header: Option<Header>, resp: Option<Response>) returns (v: Verdict)
    ensures v.Proven? <==>
            && header.Some? && resp.Some?
            && resp.value.stateRoot == header.value.stateRoot && resp.value.blockHash == header.value.hash
            && (resp.value.found <==> resp.value.value != [])
            && resp.value.valueHash == (if resp.value.found then H(resp.value.value) else Zeros(32))
            && NodeStore.Accepts(H, header.value.stateRoot, resp.value.path, resp.value.valueHash, resp.value.proof)
    ensures v.Proven? ==> v.value == if resp.value.found then Some(resp.value.value) else None
  {
    if header.None? || resp.None? {
      return Fail;
    }
    var h, r := header.value, resp.value;
    if r.stateRoot != h.stateRoot {
      return Fail;
    }
    if r.blockHash != h.hash {
      return Fail;
    }
    var want: Bytes;
    if r.found {
      if |r.value| == 0 {
        return Fail;
      }
      want := H(r.value);
    } else {
      if |r.value| != 0 {
        return Fail;
      }
      want := Zeros(32);
    }
    if r.valueHash != want {
      return Fail;
    }
    var ok := NodeStore.Verify(H, r.stateRoot, r.path, r.valueHash, r.proof);
    if !ok {
      return Fail;
    }
    v := if r.found then Proven(Some(r.value)) else Proven(None);
  }

  /** What the leaf at a path holds for a committed value: its hash; nothing when there is none. */
  predicate Holds(H: Hasher, leaves: Leaves, path: Digest, value: Option<Bytes>) {
    LeafValue(leaves, path) == if value.Some? then H(value.value) else Zeros(32)
  }

  /** The two values differ and the hash function is broken on them: they collide, or the one that is there hashes
      to the zero hash of an absent leaf. */
  predicate BrokenValue(H: Hasher, a: Option<Bytes>, b: Option<Bytes>) {
    match (a, b)
    case (Some(x), Some(y)) => Collides(H, x, y)
    case (Some(x), None) => H(x) == Zeros(32)
    case (None, Some(y)) => H(y) == Zeros(32)
    case (None, None) => false
  }

  /** The hash function is broken on what this response makes the client hash. */
  ghost predicate BrokenResponse(H: Hasher, leaves: Leaves, resp: Response, answer: Option<Bytes>, held: Option<Bytes>)
    requires |resp.path| == 32 && |resp.valueHash| == 32
    requires |resp.proof| == DEPTH && forall s :: s in resp.proof ==> |s| == 32
  {
    Broken(H, leaves, resp.path, resp.valueHash, resp.proof, DEPTH) || BrokenValue(H, answer, held)
  }

  /** A proven answer against the root of a leaf map is the committed value of the path the response names, unless
      the hash function is broken on this response. VerifyProof never sees the key that was asked for: the answer is
      that key's when the response names its leaf path, and, for a value no other path holds, only then. */
  method TrustedQuery(H: Hasher, header: Header, resp: Response, asked: Digest, ghost leaves: Leaves,
                      ghost committed: Digest -> Option<Bytes>)
    returns (v: Verdict)
    requires header.stateRoot == TreeRoot(H, leaves) && forall p :: Holds(H, leaves, p, committed(p))
    ensures v.Proven? ==> NodeStore.Sized(resp.stateRoot, resp.path, resp.valueHash, resp.proof)
    ensures v.Proven? ==>
              v.value == committed(resp.path) || BrokenResponse(H, leaves, resp, v.value, committed(resp.path))
    ensures v.Proven? && !BrokenResponse(H, leaves, resp, v.value, committed(resp.path)) ==>
              (resp.path == asked ==> v.value == committed(asked))
    ensures v.Proven? && !BrokenResponse(H, leaves, resp, v.value, committed(resp.path)) ==>
              (forall p :: p != asked ==> committed(p) != committed(asked)) ==>
                (v.value == committed(asked) <==> resp.path == asked)
  {
    v := VerifyProof(H, Some(header), Some(resp));
    if v.Proven? {
      NodeStore.AcceptedMeansLeaf(H, leaves, resp.path, resp.valueHash, resp.proof);
      assert Holds(H, leaves, resp.path, committed(resp.path));
    }
  }

  /** So an honest proof of one key passes as the answer about any other. */
  method OtherKeyPasses(H: Hasher, header: Header, path: Digest, value: Bytes, proof: seq<Digest>, ghost leaves: Leaves)
    returns (v: Verdict)
    requires header.stateRoot == TreeRoot(H, leaves) && value != [] && LeafValue(leaves, path) == H(value)
    requires IsBranch(H, leaves, path, proof)
    ensures v == Proven(Some(value))
  {
    NodeStore.ProvenVerifies(H, leaves, path, proof);
    v := VerifyProof(H, Some(header),
                     Some(Response(header.stateRoot, header.hash, path, true, value, H(value), proof)));
  }
}
