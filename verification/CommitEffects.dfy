/** What a block does to the pending commitments, read off its lists: when it is taken, and what is pending after. */
module CommitEffects {
  import opened Basics
  import opened CommitReveal

  /** The search sees only the entries of its committer, hash and heights. */
  lemma {:induction false} FindSame(s: Store, t: Store, from: Digest, hash: Digest, low: nat, high: nat)
    requires forall r: nat :: low <= r < high ==> PendingAt(s, from, hash, r) == PendingAt(t, from, hash, r)
    ensures FindIn(s, from, hash, low, high) == FindIn(t, from, hash, low, high)
    decreases high - low
  {
    if low < high && !PendingAt(s, from, hash, low) {
      FindSame(s, t, from, hash, low + 1, high);
    }
  }

  /** Below height h nothing differs. */
  ghost predicate SameBelow(s: Store, t: Store, h: nat) {
    forall x: Key :: x.0 < h ==> Lookup(s.pending, x) == Lookup(t.pending, x)
  }

  lemma FindSameBelow(s: Store, t: Store, from: Digest, hash: Digest, low: nat, h: nat)
    requires SameBelow(s, t, h)
    ensures FindIn(s, from, hash, low, h) == FindIn(t, from, hash, low, h)
  {
    forall r: nat | low <= r < h ensures PendingAt(s, from, hash, r) == PendingAt(t, from, hash, r) {
      assert Lookup(s.pending, (r, hash)) == Lookup(t.pending, (r, hash));
    }
    FindSame(s, t, from, hash, low, h);
  }

  /** The same committer's hash is pending, up to one block past the window. */
  ghost predicate StillPending(s: Store, e: Entry, h: nat) {
    exists r: nat :: r < h <= r + WINDOW + 1 && PendingAt(s, e.from, e.hash, r)
  }

  /** An entry of the sender is pending in the window. */
  ghost predicate Revealable(s: Store, e: Entry, h: nat) {
    exists r: nat :: r < h <= r + WINDOW && PendingAt(s, e.from, e.hash, r)
  }

  lemma AlreadyIff(s: Store, e: Entry, h: nat)
    ensures AlreadyPending(s, e.from, e.hash, h) <==> StillPending(s, e, h)
  {}

  lemma FoundIff(s: Store, e: Entry, h: nat)
    ensures Find(s, e.from, e.hash, h).Some? <==> Revealable(s, e, h)
  {}

  /** Commitments are taken exactly when none of them is pending already. */
  lemma {:induction false} CommitsTaken(s: Store, h: nat, es: seq<Entry>)
    ensures CommitAll(s, h, es).Some? <==> forall e :: e in es ==> !StillPending(s, e, h)
    ensures CommitAll(s, h, es).Some? ==> SameBelow(s, CommitAll(s, h, es).value, h)
  {
    if es != [] {
      var front, e := es[..|es| - 1], es[|es| - 1];
      CommitsTaken(s, h, front);
      assert forall d :: d in es <==> d in front || d == e;
      if CommitAll(s, h, front).Some? {
        var t := CommitAll(s, h, front).value;
        FindSameBelow(s, t, e.from, e.hash, Low(h, WINDOW + 1), h);
        AlreadyIff(s, e, h);
        assert AlreadyPending(t, e.from, e.hash, h) == AlreadyPending(s, e.from, e.hash, h);
      }
    }
  }

  /** Nothing differs but entries of the hashes of es. */
  ghost predicate SameOthers(s: Store, t: Store, es: seq<Entry>) {
    forall x: Key :: (forall d :: d in es ==> d.hash != x.1) ==> Lookup(s.pending, x) == Lookup(t.pending, x)
  }

  lemma FindSameHash(s: Store, t: Store, e: Entry, es: seq<Entry>, h: nat)
    requires SameOthers(s, t, es) && forall d :: d in es ==> d.hash != e.hash
    ensures Find(s, e.from, e.hash, h) == Find(t, e.from, e.hash, h)
  {
    forall r: nat ensures PendingAt(s, e.from, e.hash, r) == PendingAt(t, e.from, e.hash, r) {
      assert Lookup(s.pending, (r, e.hash)) == Lookup(t.pending, (r, e.hash));
    }
    FindSame(s, t, e.from, e.hash, Low(h, WINDOW), h);
  }

  /** Reveals are taken exactly when each finds its own commitment, and take nothing recorded at h. */
  lemma {:induction false} RevealsTaken(s: Store, h: nat, es: seq<Entry>)
    requires Distinct(es)
    ensures RevealAll(s, h, es).Some? <==> forall e :: e in es ==> Revealable(s, e, h)
    ensures RevealAll(s, h, es).Some? ==>
              var t := RevealAll(s, h, es).value;
              SameOthers(s, t, es) && forall x: Key :: x.0 >= h ==> Lookup(s.pending, x) == Lookup(t.pending, x)
  {
    if es != [] {
      var front, e := es[..|es| - 1], es[|es| - 1];
      RevealsTaken(s, h, front);
      assert forall d :: d in es <==> d in front || d == e;
      LastIsNew(es);
      if RevealAll(s, h, front).Some? {
        var t := RevealAll(s, h, front).value;
        FindSameHash(s, t, e, front, h);
        FoundIff(s, e, h);
        if Find(t, e.from, e.hash, h).Some? {
          RevealTakes(s, t, h, front, e, es);
        }
      }
    }
  }

  lemma RevealTakes(s: Store, t: Store, h: nat, front: seq<Entry>, e: Entry, es: seq<Entry>)
    requires SameOthers(s, t, front) && (forall x: Key :: x.0 >= h ==> Lookup(s.pending, x) == Lookup(t.pending, x))
    requires Reveal(t, h, e).Some? && forall d :: d in es <==> d in front || d == e
    ensures var u := Reveal(t, h, e).value;
            SameOthers(s, u, es) && forall x: Key :: x.0 >= h ==> Lookup(s.pending, x) == Lookup(u.pending, x)
  {
    var u := Reveal(t, h, e).value;
    var r := Find(t, e.from, e.hash, h).value;
    forall x: Key ensures x != (r, e.hash) ==> Lookup(u.pending, x) == Lookup(t.pending, x) {}
    forall x: Key | forall d :: d in es ==> d.hash != x.1 ensures Lookup(s.pending, x) == Lookup(u.pending, x) {
      assert e in es;
    }
  }

  /** A block's commitments and reveals are taken exactly when no commitment is pending already and every reveal
      finds a commitment of its own sender in the window. */
  lemma ApplyIff(s: Store, h: nat, b: Block)
    requires WellFormed(b)
    ensures Apply(s, h, b).Some?
       <==> && (forall e :: e in b.commits ==> !StillPending(s, e, h))
            && (forall e :: e in b.effects ==> Revealable(s, e, h))
  {
    CommitsTaken(s, h, b.commits);
    if CommitAll(s, h, b.commits).Some? {
      var t := CommitAll(s, h, b.commits).value;
      RevealsTaken(t, h, b.effects);
      forall e: Entry ensures Revealable(s, e, h) == Revealable(t, e, h) {
        FindSameBelow(s, t, e.from, e.hash, Low(h, WINDOW), h);
        FoundIff(s, e, h);
        FoundIff(t, e, h);
      }
    }
  }

  /** A reveal takes its own sender's entry and no other. */
  lemma RevealRemoves(t: Store, h: nat, e: Entry, from: Digest, hash: Digest, r: nat)
    requires Single(t) && Reveal(t, h, e).Some?
    ensures PendingAt(Reveal(t, h, e).value, from, hash, r)
       <==> PendingAt(t, from, hash, r) && Entry(hash, from) != e
  {
    assert PendingAt(t, e.from, e.hash, Find(t, e.from, e.hash, h).value);
  }

  lemma {:induction false} RevealsRemove(t: Store, h: nat, es: seq<Entry>, u: Store)
    requires Single(t) && RevealAll(t, h, es) == Some(u)
    ensures Single(u)
    ensures forall from, hash, r :: PendingAt(u, from, hash, r)
                                <==> PendingAt(t, from, hash, r) && Entry(hash, from) !in es
  {
    if es != [] {
      var front, e := es[..|es| - 1], es[|es| - 1];
      var m := RevealAll(t, h, front).value;
      RevealsRemove(t, h, front, m);
      forall from, hash, r
        ensures PendingAt(u, from, hash, r) <==> PendingAt(t, from, hash, r) && Entry(hash, from) !in es
      {
        RevealRemoves(m, h, e, from, hash, r);
        assert Entry(hash, from) in es <==> Entry(hash, from) in front || Entry(hash, from) == e;
      }
    }
  }

  /** Afterwards exactly the block's own commitments are pending at its height, under their committers. */
  lemma ApplyRecords(s: Store, h: nat, b: Block, v: Store, from: Digest, hash: Digest)
    requires h > 0 && Sound(s, h - 1) && WellFormed(b) && Apply(s, h, b) == Some(v)
    ensures PendingAt(v, from, hash, h) <==> Entry(hash, from) in b.commits
  {
    CommitAllOpen(s, h, b.commits);
    var t := CommitAll(s, h, b.commits).value;
    RevealsTaken(t, h, b.effects);
    var u := RevealAll(t, h, b.effects).value;
    assert Lookup(u.pending, (h, hash)) == Lookup(t.pending, (h, hash));
    assert Lookup(v.pending, (h, hash)) == Lookup(u.pending, (h, hash));
  }

  lemma PrunedPending(u: Store, h: nat, from: Digest, hash: Digest, r: nat)
    ensures PendingAt(Pruned(u, h), from, hash, r) <==> PendingAt(u, from, hash, r) && h <= r + WINDOW
  {}

  /** And at every other height what was pending, is still in the window and was not revealed. */
  lemma ApplyKeeps(s: Store, h: nat, b: Block, v: Store, from: Digest, hash: Digest, r: nat)
    requires h > 0 && Sound(s, h - 1) && WellFormed(b) && Apply(s, h, b) == Some(v) && r != h
    ensures PendingAt(v, from, hash, r)
       <==> PendingAt(s, from, hash, r) && h <= r + WINDOW && Entry(hash, from) !in b.effects
  {
    CommitAllOpen(s, h, b.commits);
    var t := CommitAll(s, h, b.commits).value;
    var u := RevealAll(t, h, b.effects).value;
    RevealsRemove(t, h, b.effects, u);
    PrunedPending(u, h, from, hash, r);
    assert Lookup(t.pending, (r, hash)) == Lookup(s.pending, (r, hash));
  }
}
