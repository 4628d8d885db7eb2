/** The pending-commitment store of ngstate/commit.go: record, find, consume with a journal, prune, and
    the per-height undo. */
module CommitReveal {
  import opened Basics

  /** The reveal window in blocks (ngtypes/defaults.go). */
  const WINDOW: nat := 3

  type Key = (nat, Digest)

  /** pending: (record height, hash) -> committer. spent: (reveal height, hash) -> (record height, committer). */
  datatype Store = Store(pending: map<Key, Digest>, spent: map<Key, (nat, Digest)>)

  /** A blind hash and the address that committed, or reveals, it. */
  datatype Entry = Entry(hash: Digest, from: Digest)

  datatype Block = Block(commits: seq<Entry>, effects: seq<Entry>)

  /** FullBlock.CheckError: no commitment hash twice, no reveal twice. */
  predicate Distinct(es: seq<Entry>) {
    forall i, j :: 0 <= i < j < |es| ==> es[i].hash != es[j].hash
  }

  predicate WellFormed(b: Block) {
    Distinct(b.commits) && Distinct(b.effects)
  }

  function Low(height: nat, reach: nat): nat {
    if height > reach then height - reach else 0
  }

  predicate PendingAt(s: Store, from: Digest, hash: Digest, r: nat) {
    (r, hash) in s.pending && s.pending[(r, hash)] == from
  }

  /** The least record height in [low, high) holding this committer's hash. */
  function FindIn(s: Store, from: Digest, hash: Digest, low: nat, high: nat): (r: Option<nat>)
    ensures r.Some? ==> low <= r.value < high && PendingAt(s, from, hash, r.value)
    ensures r.Some? ==> forall g :: low <= g < r.value ==> !PendingAt(s, from, hash, g)
    ensures r.None? ==> forall g :: low <= g < high ==> !PendingAt(s, from, hash, g)
    decreases high - low
  {
    if low >= high then None
    else if PendingAt(s, from, hash, low) then Some(low)
    else FindIn(s, from, hash, low + 1, high)
  }

  /** findCommit: an unrevealed commitment recorded in [reveal - window, reveal). */
  function Find(s: Store, from: Digest, hash: Digest, at: nat): (r: Option<nat>) {
    FindIn(s, from, hash, Low(at, WINDOW), at)
  }

  /** commitFromPending: the same committer's hash is still pending below the height (one past the window). */
  predicate AlreadyPending(s: Store, from: Digest, hash: Digest, height: nat) {
    FindIn(s, from, hash, Low(height, WINDOW + 1), height).Some?
  }

  /** handleCommits for one commitment: a pending duplicate fails the block. */
  function Commit(s: Store, h: nat, e: Entry): (r: Option<Store>) {
    if AlreadyPending(s, e.from, e.hash, h) then None
    else Some(s.(pending := s.pending[(h, e.hash) := e.from]))
  }

  function CommitAll(s: Store, h: nat, es: seq<Entry>): (r: Option<Store>) {
    if es == [] then Some(s)
    else
      var t := CommitAll(s, h, es[..|es| - 1]);
      if t.None? then None else Commit(t.value, h, es[|es| - 1])
  }

  /** consumeReveal: journal the consumption at the reveal height, then delete the commitment. */
  function Reveal(s: Store, h: nat, e: Entry): (r: Option<Store>) {
    var found := Find(s, e.from, e.hash, h);
    if found.None? then None
    else Some(Store(s.pending - {(found.value, e.hash)}, s.spent[(h, e.hash) := (found.value, e.from)]))
  }

  function RevealAll(s: Store, h: nat, es: seq<Entry>): (r: Option<Store>) {
    if es == [] then Some(s)
    else
      var t := RevealAll(s, h, es[..|es| - 1]);
      if t.None? then None else Reveal(t.value, h, es[|es| - 1])
  }

  /** pruneCommits at the tip: drop rows recorded, or journaled, below tip - window. */
  function Pruned(s: Store, tip: nat): (r: Store)
    ensures forall g: nat, x: Key :: Row(r, g, x) == if tip <= g + WINDOW then Row(s, g, x) else None
  {
    var pending := map x | x in s.pending && tip <= x.0 + WINDOW :: s.pending[x];
    var spent := map y | y in s.spent && tip <= y.0 + WINDOW :: s.spent[y];
    Store(pending, spent)
  }

  /** Upgrade's commitment part: commits first, then reveals, then the prune. */
  function Apply(s: Store, h: nat, b: Block): (r: Option<Store>) {
    var t := CommitAll(s, h, b.commits);
    if t.None? then None
    else
      var u := RevealAll(t.value, h, b.effects);
      if u.None? then None else Some(Pruned(u.value, h))
  }

  /** The committer a journal row at height h restores at a key. */
  function Row(s: Store, h: nat, x: Key): (r: Option<Digest>) {
    if (h, x.1) in s.spent && s.spent[(h, x.1)].0 == x.0 then Some(s.spent[(h, x.1)].1) else None
  }

  /** What the undo of height h leaves at a pending key. */
  function UndoneAt(s: Store, h: nat, x: Key): (r: Option<Digest>) {
    if Row(s, h, x).Some? then Row(s, h, x)
    else if x.0 == h then None
    else Lookup(s.pending, x)
  }

  /** deleteCommitsAtHeight then restoreConsumedAtHeight. */
  function Undone(s: Store, h: nat): (r: Store)
    ensures forall x :: Lookup(r.pending, x) == UndoneAt(s, h, x)
    ensures forall g: nat, x: Key :: Row(r, g, x) == if g == h then None else Row(s, g, x)
  {
    var keys := s.pending.Keys + set y | y in s.spent && y.0 == h :: (s.spent[y].0, y.1);
    var pending := map x | x in keys && UndoneAt(s, h, x).Some? :: UndoneAt(s, h, x).value;
    var spent := map y | y in s.spent && y.0 != h :: s.spent[y];
    Store(pending, spent)
  }

  function Unwound(s: Store, tip: nat, target: nat): (r: Store)
    decreases tip
  {
    if tip <= target then s else Unwound(Undone(s, tip), tip - 1, target)
  }

  // ---- what every block keeps ----

  /** Rows lie in the window, a committer's hash is pending at most once, and a consumed key is not pending. */
  ghost predicate Sound(s: Store, tip: nat) {
    && (forall x :: x in s.pending ==> x.0 <= tip <= x.0 + WINDOW)
    && (forall y :: y in s.spent ==> y.0 <= tip <= y.0 + WINDOW)
    && Single(s)
    && Journaled(s)
  }

  /** No two pending entries share committer and hash. */
  ghost predicate Single(s: Store) {
    forall from, hash, q, r :: PendingAt(s, from, hash, q) && PendingAt(s, from, hash, r) ==> q == r
  }

  ghost predicate Journaled(s: Store) {
    && (forall h: nat, x: Key :: Row(s, h, x).Some? ==> x.0 < h <= x.0 + WINDOW && x !in s.pending)
    && OneRow(s)
  }

  /** No two journal rows name the same commitment. */
  ghost predicate OneRow(s: Store) {
    forall g: nat, h: nat, x: Key :: Row(s, g, x).Some? && Row(s, h, x).Some? ==> g == h
  }

  /** Inside block h, between the parts of Apply. */
  ghost predicate Open(s: Store, h: nat) {
    && h > 0
    && (forall x :: x in s.pending ==> x.0 <= h <= x.0 + WINDOW + 1)
    && (forall y :: y in s.spent ==> y.0 <= h <= y.0 + WINDOW + 1)
    && Single(s)
    && Journaled(s)
  }

  lemma LastIsNew(es: seq<Entry>)
    requires es != [] && Distinct(es)
    ensures forall d :: d in es[..|es| - 1] ==> d.hash != es[|es| - 1].hash
  {}

  lemma CommitStep(s: Store, h: nat, e: Entry)
    requires Open(s, h) && (h, e.hash) !in s.pending
    requires Commit(s, h, e).Some?
    requires forall y :: y in s.spent ==> y.0 < h
    ensures Open(Commit(s, h, e).value, h)
  {
    var t := Commit(s, h, e).value;
    forall from, hash, q: nat
      ensures PendingAt(t, from, hash, q) <==> PendingAt(s, from, hash, q) || (from, hash, q) == (e.from, e.hash, h)
      ensures PendingAt(s, e.from, e.hash, q) ==> q == h
    {
    }
    assert forall g: nat, x: Key :: Row(t, g, x) == Row(s, g, x);
    assert forall g: nat, x: Key :: Row(s, g, x).Some? ==> g < h;
  }

  /** After the commits of block h: the new rows are exactly the block's, everything older is untouched. */
  lemma {:induction false} CommitAllOpen(s: Store, h: nat, es: seq<Entry>)
    requires h > 0 && Sound(s, h - 1) && Distinct(es) && CommitAll(s, h, es).Some?
    ensures var t := CommitAll(s, h, es).value;
            && Open(t, h)
            && t.spent == s.spent
            && (forall x: Key :: x.0 != h ==> Lookup(t.pending, x) == Lookup(s.pending, x))
            && (forall x: Key :: x.0 == h && x in t.pending ==> Entry(x.1, t.pending[x]) in es)
            && (forall e :: e in es ==> PendingAt(t, e.from, e.hash, h))
  {
    if es != [] {
      var front, e := es[..|es| - 1], es[|es| - 1];
      CommitAllOpen(s, h, front);
      var t := CommitAll(s, h, front).value;
      LastIsNew(es);
      CommitStep(t, h, e);
      forall d | d in es ensures PendingAt(Commit(t, h, e).value, d.from, d.hash, h) {
        assert d != e ==> d in front;
      }
    }
  }

  /** Block h taken back from t gives s: its rows restore what it consumed, nothing else changed. */
  ghost predicate Undoes(s: Store, t: Store, h: nat) {
    && (forall x: Key ::
          x.0 != h ==> Lookup(s.pending, x) == if Row(t, h, x).Some? then Row(t, h, x) else Lookup(t.pending, x))
    && (forall y: Key :: y.0 != h ==> Lookup(t.spent, y) == Lookup(s.spent, y))
  }

  lemma RevealRows(t: Store, h: nat, e: Entry, g: nat, x: Key)
    requires (h, e.hash) !in t.spent && Reveal(t, h, e).Some?
    ensures Row(Reveal(t, h, e).value, g, x)
         == if g == h && x == (Find(t, e.from, e.hash, h).value, e.hash) then Some(e.from) else Row(t, g, x)
  {}

  lemma RevealOpen(t: Store, h: nat, e: Entry)
    requires Open(t, h) && (h, e.hash) !in t.spent && Reveal(t, h, e).Some?
    ensures Open(Reveal(t, h, e).value, h)
  {
    var r := Find(t, e.from, e.hash, h).value;
    var u := Reveal(t, h, e).value;
    assert PendingAt(t, e.from, e.hash, r);
    assert forall from, hash, q :: PendingAt(u, from, hash, q) ==> PendingAt(t, from, hash, q);
    forall g: nat, x: Key ensures Row(u, g, x) == if g == h && x == (r, e.hash) then Some(e.from) else Row(t, g, x) {
      RevealRows(t, h, e, g, x);
    }
  }

  lemma RevealUndoes(s: Store, t: Store, h: nat, e: Entry)
    requires Undoes(s, t, h) && (h, e.hash) !in t.spent && Reveal(t, h, e).Some?
    ensures Undoes(s, Reveal(t, h, e).value, h)
  {
    var r := Find(t, e.from, e.hash, h).value;
    var u := Reveal(t, h, e).value;
    assert PendingAt(t, e.from, e.hash, r);
    forall x: Key | x.0 != h
      ensures Lookup(s.pending, x) == if Row(u, h, x).Some? then Row(u, h, x) else Lookup(u.pending, x)
    {
      if x.1 == e.hash {
        assert Row(t, h, x).None?;
      } else {
        assert Row(u, h, x) == Row(t, h, x);
      }
    }
  }

  lemma {:induction false} RevealAllOpen(s: Store, t: Store, h: nat, es: seq<Entry>)
    requires Open(t, h) && Undoes(s, t, h) && Distinct(es) && RevealAll(t, h, es).Some?
    requires forall y :: y in t.spent ==> y.0 < h
    ensures var u := RevealAll(t, h, es).value;
            && Open(u, h) && Undoes(s, u, h)
            && (forall y :: y in u.spent && y.0 == h ==> Entry(y.1, u.spent[y].1) in es)
  {
    if es != [] {
      var front, e := es[..|es| - 1], es[|es| - 1];
      RevealAllOpen(s, t, h, front);
      var u := RevealAll(t, h, front).value;
      LastIsNew(es);
      RevealOpen(u, h, e);
      RevealUndoes(s, u, h, e);
    }
  }

  /** The store u between block h's effects and its prune. */
  lemma BlockOpen(s: Store, h: nat, b: Block, v: Store) returns (u: Store)
    requires h > 0 && Sound(s, h - 1) && WellFormed(b) && Apply(s, h, b) == Some(v)
    ensures Open(u, h) && Undoes(s, u, h) && v == Pruned(u, h)
  {
    CommitAllOpen(s, h, b.commits);
    var t := CommitAll(s, h, b.commits).value;
    assert Undoes(s, t, h) by {
      forall x: Key ensures Row(t, h, x).None? {}
    }
    RevealAllOpen(s, t, h, b.effects);
    u := RevealAll(t, h, b.effects).value;
  }

  /** Every block keeps the window, single pending entries and the journal's meaning. */
  lemma ApplySound(s: Store, h: nat, b: Block, v: Store)
    requires h > 0 && Sound(s, h - 1) && WellFormed(b) && Apply(s, h, b) == Some(v)
    ensures Sound(v, h)
  {
    var u := BlockOpen(s, h, b, v);
    PrunedSound(u, h);
  }

  lemma PrunedSound(u: Store, h: nat)
    requires Open(u, h)
    ensures Sound(Pruned(u, h), h)
  {
    var v := Pruned(u, h);
    assert forall from, hash, q :: PendingAt(v, from, hash, q) ==> PendingAt(u, from, hash, q);
  }

  /** Undoing the block just applied gives the store before it, pruned at that block's height. */
  lemma UndoIsPrune(s: Store, h: nat, b: Block, v: Store)
    requires h > 0 && Sound(s, h - 1) && WellFormed(b) && Apply(s, h, b) == Some(v)
    ensures Undone(v, h) == Pruned(s, h)
  {
    var u := BlockOpen(s, h, b, v);
    UndoPruned(s, u, h);
  }

  lemma UndoPruned(s: Store, u: Store, h: nat)
    requires Undoes(s, u, h)
    requires forall x :: x in s.pending ==> x.0 < h
    requires forall y :: y in s.spent ==> y.0 < h
    requires forall x: Key :: Row(u, h, x).Some? ==> x.0 < h <= x.0 + WINDOW
    ensures Undone(Pruned(u, h), h) == Pruned(s, h)
  {
    var p, q := Undone(Pruned(u, h), h), Pruned(s, h);
    forall x ensures Lookup(p.pending, x) == Lookup(q.pending, x) {
      UndoPrunedPending(s, u, h, x);
    }
    SameLookups(p.pending, q.pending);
    forall y ensures Lookup(p.spent, y) == Lookup(q.spent, y) {
      UndoPrunedSpent(s, u, h, y);
    }
    SameLookups(p.spent, q.spent);
  }

  lemma UndoPrunedPending(s: Store, u: Store, h: nat, x: Key)
    requires Undoes(s, u, h)
    requires x in s.pending ==> x.0 < h
    requires Row(u, h, x).Some? ==> x.0 < h <= x.0 + WINDOW
    ensures UndoneAt(Pruned(u, h), h, x) == Lookup(Pruned(s, h).pending, x)
  {
    assert Row(Pruned(u, h), h, x) == Row(u, h, x);
    assert Lookup(Pruned(u, h).pending, x) == if h <= x.0 + WINDOW then Lookup(u.pending, x) else None;
    assert Lookup(Pruned(s, h).pending, x) == if h <= x.0 + WINDOW then Lookup(s.pending, x) else None;
  }

  lemma UndoPrunedSpent(s: Store, u: Store, h: nat, y: Key)
    requires Undoes(s, u, h)
    requires y in s.spent ==> y.0 < h
    ensures Lookup(Undone(Pruned(u, h), h).spent, y) == Lookup(Pruned(s, h).spent, y)
  {
    if y.0 != h {
      assert Lookup(u.spent, y) == Lookup(s.spent, y);
    }
  }

  // ---- many blocks, then the unwind ----

  /** Blocks at heights f+1, f+2, ...; None when one fails. */
  function ApplyRun(s: Store, f: nat, blocks: seq<Block>): (r: Option<Store>) {
    if blocks == [] then Some(s)
    else
      var t := ApplyRun(s, f, blocks[..|blocks| - 1]);
      if t.None? then None else Apply(t.value, f + |blocks|, blocks[|blocks| - 1])
  }

  ghost predicate AllWellFormed(blocks: seq<Block>) {
    forall i :: 0 <= i < |blocks| ==> WellFormed(blocks[i])
  }

  /** The first of the blocks to reveal an entry. */
  function FirstReveal(blocks: seq<Block>, e: Entry): (r: Option<nat>)
    ensures r.Some? ==> r.value < |blocks| && e in blocks[r.value].effects
    ensures r.Some? ==> forall i :: 0 <= i < r.value ==> e !in blocks[i].effects
    ensures r.None? ==> forall i :: 0 <= i < |blocks| ==> e !in blocks[i].effects
  {
    if blocks == [] then None
    else
      var r := FirstReveal(blocks[..|blocks| - 1], e);
      if r.Some? then r else if e in blocks[|blocks| - 1].effects then Some(|blocks| - 1) else None
  }

  /** The height at which the blocks f+1, f+2, ... reveal the commitment pending at a key, if they do so
      within its window. */
  function ConsumedAt(s: Store, f: nat, blocks: seq<Block>, x: Key): (r: Option<nat>) {
    if x !in s.pending then None
    else
      var k := FirstReveal(blocks, Entry(x.1, s.pending[x]));
      if k.Some? && f + 1 + k.value <= x.0 + WINDOW then Some(f + 1 + k.value) else None
  }

  /** What one effect does to an older commitment. */
  lemma RevealAt(m: Store, h: nat, e: Entry, u: Store, x: Key)
    requires Single(m) && (h, e.hash) !in m.spent && Reveal(m, h, e) == Some(u) && x.0 < h
    ensures var hit := h <= x.0 + WINDOW && PendingAt(m, e.from, e.hash, x.0) && x.1 == e.hash;
            && Row(u, h, x) == (if hit then Some(e.from) else Row(m, h, x))
            && Lookup(u.pending, x) == (if hit then None else Lookup(m.pending, x))
  {
    assert PendingAt(m, e.from, e.hash, Find(m, e.from, e.hash, h).value);
    RevealRows(m, h, e, h, x);
  }

  /** The commitment at a key is revealed by one of the effects, within its window. */
  predicate Hit(t: Store, h: nat, es: seq<Entry>, x: Key) {
    x in t.pending && h <= x.0 + WINDOW && Entry(x.1, t.pending[x]) in es
  }

  /** What the effects of a block do to an older commitment. */
  lemma {:induction false} RevealAllAt(s: Store, t: Store, h: nat, es: seq<Entry>, u: Store, x: Key)
    requires Open(t, h) && Undoes(s, t, h) && Distinct(es) && RevealAll(t, h, es) == Some(u) && x.0 < h
    requires forall y :: y in t.spent ==> y.0 < h
    ensures Row(u, h, x) == if Hit(t, h, es, x) then Some(t.pending[x]) else None
    ensures Lookup(u.pending, x) == if Hit(t, h, es, x) then None else Lookup(t.pending, x)
  {
    if es != [] {
      var front, e := es[..|es| - 1], es[|es| - 1];
      var m := RevealAll(t, h, front).value;
      RevealAllAt(s, t, h, front, m, x);
      RevealAllOpen(s, t, h, front);
      LastIsNew(es);
      RevealAt(m, h, e, u, x);
      HitLast(t, h, es, x);
    }
  }

  lemma HitLast(t: Store, h: nat, es: seq<Entry>, x: Key)
    requires es != [] && Distinct(es)
    ensures var front, e := es[..|es| - 1], es[|es| - 1];
            && (Hit(t, h, es, x) <==> Hit(t, h, front, x) || Hit(t, h, [e], x))
            && !(Hit(t, h, front, x) && x.1 == e.hash)
  {
    LastIsNew(es);
  }

  /** What block h does to an older commitment and to the journal. */
  ghost predicate After(s: Store, h: nat, es: seq<Entry>, v: Store, x: Key) {
    && Row(v, h, x) == (if Hit(s, h, es, x) then Some(s.pending[x]) else None)
    && Lookup(v.pending, x) == (if Hit(s, h, es, x) || x.0 + WINDOW < h then None else Lookup(s.pending, x))
    && Lookup(v.spent, x) == (if h <= x.0 + WINDOW then Lookup(s.spent, x) else None)
    && (forall g: nat :: g < h ==> Row(v, g, x) == if h <= g + WINDOW then Row(s, g, x) else None)
    && (forall g: nat :: g > h ==> Row(v, g, x) == None)
  }

  lemma ApplyAt(s: Store, h: nat, b: Block, v: Store, x: Key)
    requires h > 0 && Sound(s, h - 1) && WellFormed(b) && Apply(s, h, b) == Some(v) && x.0 < h
    ensures After(s, h, b.effects, v, x)
  {
    CommitAllOpen(s, h, b.commits);
    var t := CommitAll(s, h, b.commits).value;
    assert Undoes(s, t, h) by {
      forall x: Key ensures Row(t, h, x).None? {}
    }
    var u := RevealAll(t, h, b.effects).value;
    RevealAllAt(s, t, h, b.effects, u, x);
    RevealAllOpen(s, t, h, b.effects);
    AppliedSpent(s, h, v, u, x);
    assert Lookup(t.pending, x) == Lookup(s.pending, x);
  }

  lemma AppliedSpent(s: Store, h: nat, v: Store, u: Store, x: Key)
    requires x.0 < h && v == Pruned(u, h) && (forall y :: y in u.spent ==> y.0 <= h)
    requires forall y: Key :: y.0 != h ==> Lookup(u.spent, y) == Lookup(s.spent, y)
    ensures Lookup(v.spent, x) == if h <= x.0 + WINDOW then Lookup(s.spent, x) else None
    ensures forall g: nat :: g < h ==> Row(v, g, x) == if h <= g + WINDOW then Row(s, g, x) else None
    ensures forall g: nat :: g > h ==> Row(v, g, x) == None
  {
    forall g: nat | g < h ensures Row(u, g, x) == Row(s, g, x) {
      assert Lookup(u.spent, (g, x.1)) == Lookup(s.spent, (g, x.1));
    }
    assert Lookup(u.spent, x) == Lookup(s.spent, x);
  }

  /** What the blocks f+1 .. f+n leave at a key of the store they start from: consumed and journaled, or
      dropped once it is out of the window, or still there. */
  ghost predicate Fate(s: Store, f: nat, blocks: seq<Block>, t: Store, tip: nat, x: Key) {
    forall seal {:trigger Opened(FATE, seal)} :: Opened(FATE, seal) ==> Fated(s, f, blocks, t, tip, x)
  }

  ghost predicate Fated(s: Store, f: nat, blocks: seq<Block>, t: Store, tip: nat, x: Key) {
    var g := ConsumedAt(s, f, blocks, x);
    && Lookup(t.pending, x) == (if g.None? && tip <= x.0 + WINDOW then Lookup(s.pending, x) else None)
    && (forall h: nat :: f < h ==>
                           Row(t, h, x) == if g == Some(h) && tip <= h + WINDOW then Lookup(s.pending, x) else None)
    && Lookup(t.spent, x) == (if tip <= x.0 + WINDOW then Lookup(s.spent, x) else None)
  }

  lemma {:induction false} RunSound(s: Store, f: nat, blocks: seq<Block>, t: Store, tip: nat)
    requires Sound(s, f) && AllWellFormed(blocks) && ApplyRun(s, f, blocks) == Some(t) && tip == f + |blocks|
    ensures Sound(t, tip)
  {
    if blocks != [] {
      var r := ApplyRun(s, f, blocks[..|blocks| - 1]).value;
      RunSound(s, f, blocks[..|blocks| - 1], r, tip - 1);
      ApplySound(r, tip, blocks[|blocks| - 1], t);
    }
  }

  /** The last block of a run, on its own. */
  lemma RunLast(s: Store, f: nat, blocks: seq<Block>, t: Store, tip: nat) returns (r: Store)
    requires Sound(s, f) && AllWellFormed(blocks) && ApplyRun(s, f, blocks) == Some(t) && tip == f + |blocks|
    requires blocks != []
    ensures AllWellFormed(blocks[..|blocks| - 1]) && ApplyRun(s, f, blocks[..|blocks| - 1]) == Some(r)
    ensures Sound(r, tip - 1) && WellFormed(blocks[|blocks| - 1]) && Apply(r, tip, blocks[|blocks| - 1]) == Some(t)
  {
    r := ApplyRun(s, f, blocks[..|blocks| - 1]).value;
    RunSound(s, f, blocks[..|blocks| - 1], r, tip - 1);
  }

  lemma {:induction false} RunAt(s: Store, f: nat, blocks: seq<Block>, t: Store, tip: nat, x: Key)
    requires Sound(s, f) && AllWellFormed(blocks) && ApplyRun(s, f, blocks) == Some(t) && x.0 <= f
    requires tip == f + |blocks|
    ensures Fate(s, f, blocks, t, tip, x)
  {
    if blocks == [] {
      FateStart(s, f, x);
    } else {
      var r := RunLast(s, f, blocks, t, tip);
      RunAt(s, f, blocks[..|blocks| - 1], r, tip - 1, x);
      ApplyAt(r, tip, blocks[|blocks| - 1], t, x);
      FateStep(s, f, blocks, r, t, tip, x);
    }
  }

  lemma FateStart(s: Store, f: nat, x: Key)
    requires Sound(s, f) && x.0 <= f
    ensures Fate(s, f, [], s, f, x)
  {
    forall h: nat | f < h ensures Row(s, h, x).None? {}
  }

  lemma FateStep(s: Store, f: nat, blocks: seq<Block>, r: Store, t: Store, tip: nat, x: Key)
    requires blocks != [] && tip == f + |blocks| && x.0 <= f
    requires x in s.pending ==> f <= x.0 + WINDOW
    requires Fate(s, f, blocks[..|blocks| - 1], r, tip - 1, x) && After(r, tip, blocks[|blocks| - 1].effects, t, x)
    ensures Fate(s, f, blocks, t, tip, x)
  {
    assert Opened(FATE, true);
    var front := blocks[..|blocks| - 1];
    var g := ConsumedAt(s, f, blocks, x);
    assert x in s.pending ==> FirstReveal(front, Entry(x.1, s.pending[x])).Some? ==>
        FirstReveal(blocks, Entry(x.1, s.pending[x])) == FirstReveal(front, Entry(x.1, s.pending[x]));
    forall h: nat | f < h
      ensures Row(t, h, x) == if g == Some(h) && tip <= h + WINDOW then Lookup(s.pending, x) else None
    {
    }
  }

  // ---- the unwind ----

  /** Without a journal row above the target, the unwind leaves what is pending at a key. */
  lemma {:induction false} UnwoundKeeps(t: Store, tip: nat, f: nat, x: Key)
    requires x.0 <= f && forall h: nat :: f < h ==> Row(t, h, x).None?
    ensures Lookup(Unwound(t, tip, f).pending, x) == Lookup(t.pending, x)
    decreases tip
  {
    if f < tip {
      var u := Undone(t, tip);
      assert Lookup(u.pending, x) == UndoneAt(t, tip, x);
      UnwoundKeeps(u, tip - 1, f, x);
    }
  }

  /** Above the target no other journal row than g names the key. */
  ghost predicate Alone(t: Store, f: nat, x: Key, g: nat) {
    forall h: nat :: f < h && h != g ==> Row(t, h, x).None?
  }

  /** The unwind restores a key from its one journal row above the target. */
  lemma {:induction false} UnwoundRestores(t: Store, tip: nat, f: nat, x: Key, g: nat)
    requires x.0 <= f < g <= tip && Row(t, g, x).Some?
    requires Alone(t, f, x, g)
    ensures Lookup(Unwound(t, tip, f).pending, x) == Row(t, g, x)
    decreases tip
  {
    var below := tip - 1;
    var u := Undone(t, tip);
    var r := Unwound(u, below, f);
    assert Unwound(t, tip, f) == r;
    UndoneKey(t, tip, f, x, g);
    if g < tip {
      UnwoundRestores(u, below, f, x, g);
      assert Lookup(r.pending, x) == Row(u, g, x);
    } else {
      UnwoundKeeps(u, below, f, x);
      assert Lookup(r.pending, x) == Lookup(u.pending, x);
    }
  }

  lemma UndoneKey(t: Store, tip: nat, f: nat, x: Key, g: nat)
    requires x.0 <= f < g <= tip && Row(t, g, x).Some?
    requires Alone(t, f, x, g)
    ensures var u := Undone(t, tip);
            && (g == tip ==> Lookup(u.pending, x) == Row(t, g, x))
            && (g != tip ==> Row(u, g, x) == Row(t, g, x))
            && (g == tip ==> forall h: nat :: f < h ==> Row(u, h, x).None?)
            && (g != tip ==> Alone(u, f, x, g))
  {
    assert Lookup(Undone(t, tip).pending, x) == UndoneAt(t, tip, x);
  }

  /** Nothing recorded above the target is left. */
  lemma {:induction false} UnwoundDrops(t: Store, tip: nat, f: nat, x: Key)
    requires f < x.0 && f <= tip && (x in t.pending ==> x.0 <= tip)
    requires forall h: nat :: Row(t, h, x).Some? ==> x.0 < h <= tip
    ensures x !in Unwound(t, tip, f).pending
    decreases tip
  {
    if f < tip {
      var u := Undone(t, tip);
      assert Lookup(u.pending, x) == UndoneAt(t, tip, x);
      forall h: nat | Row(u, h, x).Some? ensures x.0 < h <= tip - 1 {
        assert Row(u, h, x) == if h == tip then None else Row(t, h, x);
      }
      UnwoundDrops(u, tip - 1, f, x);
    }
  }

  lemma {:induction false} UnwoundSpent(t: Store, tip: nat, f: nat, y: Key)
    ensures Lookup(Unwound(t, tip, f).spent, y) == if f < y.0 <= tip then None else Lookup(t.spent, y)
    decreases tip
  {
    if f < tip {
      UnwoundSpent(Undone(t, tip), tip - 1, f, y);
    }
  }

  /** A commitment pending at f outlives the blocks f+1 .. f+n and their undo: it is either still within
      the window of f+n, or revealed by one of the blocks whose journal row f+n still keeps. */
  predicate Survives(s: Store, f: nat, blocks: seq<Block>, x: Key) {
    var tip, g := f + |blocks|, ConsumedAt(s, f, blocks, x);
    tip <= WINDOW + if g.Some? then g.value else x.0
  }

  /** What the unwind to f leaves at a key, said of the store s of height f and the blocks alone. */
  ghost predicate Survival(s: Store, f: nat, blocks: seq<Block>, u: Store, x: Key) {
    && Lookup(u.pending, x) == (if Survives(s, f, blocks, x) then Lookup(s.pending, x) else None)
    && Lookup(u.spent, x) == (if f + |blocks| <= x.0 + WINDOW then Lookup(s.spent, x) else None)
  }

  /** Unwinding f+n .. f+1 leaves exactly the surviving commitments of height f. */
  lemma UnwindCommits(s: Store, f: nat, blocks: seq<Block>, t: Store, tip: nat, x: Key)
    requires Sound(s, f) && AllWellFormed(blocks) && ApplyRun(s, f, blocks) == Some(t) && tip == f + |blocks|
    ensures Survival(s, f, blocks, Unwound(t, tip, f), x)
  {
    if x.0 <= f {
      RunAt(s, f, blocks, t, tip, x);
      FateUnwinds(s, f, blocks, t, tip, x);
    } else {
      NewUnwinds(s, f, blocks, t, tip, x);
    }
  }

  lemma NewUnwinds(s: Store, f: nat, blocks: seq<Block>, t: Store, tip: nat, x: Key)
    requires Sound(s, f) && AllWellFormed(blocks) && ApplyRun(s, f, blocks) == Some(t) && tip == f + |blocks|
    requires f < x.0
    ensures Survival(s, f, blocks, Unwound(t, tip, f), x)
  {
    RunSound(s, f, blocks, t, tip);
    UnwoundDrops(t, tip, f, x);
    UnwoundSpent(t, tip, f, x);
    assert x !in s.pending && x !in s.spent && x !in Unwound(t, tip, f).pending;
  }

  lemma FateUnwinds(s: Store, f: nat, blocks: seq<Block>, t: Store, tip: nat, x: Key)
    requires x.0 <= f && tip == f + |blocks| && Fate(s, f, blocks, t, tip, x)
    ensures Survival(s, f, blocks, Unwound(t, tip, f), x)
  {
    assert Opened(FATE, true);
    var g := ConsumedAt(s, f, blocks, x);
    UnwoundSpent(t, tip, f, x);
    if g.Some? && tip <= g.value + WINDOW {
      UnwoundRestores(t, tip, f, x, g.value);
    } else {
      UnwoundKeeps(t, tip, f, x);
    }
  }

  lemma AllSurvive(s: Store, f: nat, blocks: seq<Block>, t: Store, tip: nat)
    requires Sound(s, f) && AllWellFormed(blocks) && ApplyRun(s, f, blocks) == Some(t) && tip == f + |blocks|
    ensures forall x: Key :: Survival(s, f, blocks, Unwound(t, tip, f), x)
  {
    forall x: Key ensures Survival(s, f, blocks, Unwound(t, tip, f), x) {
      UnwindCommits(s, f, blocks, t, tip, x);
    }
  }

  /** Every commitment pending at f survives. */
  ghost predicate AllKept(s: Store, f: nat, blocks: seq<Block>) {
    forall x :: x in s.pending ==> Survives(s, f, blocks, x)
  }

  /** The unwind restores the pending store exactly iff every commitment pending at f survives. */
  lemma UnwindExactIff(s: Store, f: nat, blocks: seq<Block>, t: Store, tip: nat)
    requires Sound(s, f) && AllWellFormed(blocks) && ApplyRun(s, f, blocks) == Some(t) && tip == f + |blocks|
    ensures Unwound(t, tip, f).pending == s.pending <==> AllKept(s, f, blocks)
  {
    AllSurvive(s, f, blocks, t, tip);
    ExactIff(s, f, blocks, Unwound(t, tip, f));
  }

  lemma ExactIff(s: Store, f: nat, blocks: seq<Block>, u: Store)
    requires forall x: Key :: Survival(s, f, blocks, u, x)
    ensures u.pending == s.pending <==> AllKept(s, f, blocks)
  {
    if u.pending == s.pending {
      forall x | x in s.pending ensures Survives(s, f, blocks, x) {
        assert Survival(s, f, blocks, u, x);
      }
    }
    if AllKept(s, f, blocks) {
      forall x ensures Lookup(u.pending, x) == Lookup(s.pending, x) {
        assert Survival(s, f, blocks, u, x);
      }
      SameLookups(u.pending, s.pending);
    }
  }

  // ---- what a later block sees of the store ----

  /** Two stores with the same pending entries; their journals may differ. */
  ghost predicate Alike(s: Option<Store>, t: Option<Store>) {
    (s.Some? <==> t.Some?) && (s.Some? ==> s.value.pending == t.value.pending)
  }

  lemma {:induction false} FindAlike(s: Store, t: Store, from: Digest, hash: Digest, low: nat, high: nat)
    requires s.pending == t.pending
    ensures FindIn(s, from, hash, low, high) == FindIn(t, from, hash, low, high)
    decreases high - low
  {
    if low < high {
      FindAlike(s, t, from, hash, low + 1, high);
    }
  }

  lemma {:induction false} CommitAlike(s: Store, t: Store, h: nat, es: seq<Entry>)
    requires s.pending == t.pending
    ensures Alike(CommitAll(s, h, es), CommitAll(t, h, es))
  {
    if es != [] {
      var front, e := es[..|es| - 1], es[|es| - 1];
      CommitAlike(s, t, h, front);
      if CommitAll(s, h, front).Some? {
        FindAlike(CommitAll(s, h, front).value, CommitAll(t, h, front).value, e.from, e.hash, Low(h, WINDOW + 1), h);
      }
    }
  }

  lemma {:induction false} RevealAlike(s: Store, t: Store, h: nat, es: seq<Entry>)
    requires s.pending == t.pending
    ensures Alike(RevealAll(s, h, es), RevealAll(t, h, es))
  {
    if es != [] {
      var front, e := es[..|es| - 1], es[|es| - 1];
      RevealAlike(s, t, h, front);
      if RevealAll(s, h, front).Some? {
        FindAlike(RevealAll(s, h, front).value, RevealAll(t, h, front).value, e.from, e.hash, Low(h, WINDOW), h);
      }
    }
  }

  lemma ApplyAlike(s: Store, t: Store, h: nat, b: Block)
    requires s.pending == t.pending
    ensures Alike(Apply(s, h, b), Apply(t, h, b))
  {
    CommitAlike(s, t, h, b.commits);
    var p, q := CommitAll(s, h, b.commits), CommitAll(t, h, b.commits);
    if p.Some? {
      RevealAlike(p.value, q.value, h, b.effects);
    }
  }

  /** The journal decides nothing about later blocks. */
  lemma {:induction false} RunAlike(s: Store, t: Store, f: nat, blocks: seq<Block>)
    requires s.pending == t.pending
    ensures Alike(ApplyRun(s, f, blocks), ApplyRun(t, f, blocks))
  {
    if blocks != [] {
      var front := blocks[..|blocks| - 1];
      RunAlike(s, t, f, front);
      var p, q := ApplyRun(s, f, front), ApplyRun(t, f, front);
      if p.Some? {
        ApplyAlike(p.value, q.value, f + |blocks|, blocks[|blocks| - 1]);
      }
    }
  }

  /** The failing family is real: a commitment of height 1, pending and revealable at height 4, is gone
      after two empty blocks 4 and 5 are unwound, so the block revealing it no longer applies. */
  lemma UnwindLosesRevealable(e: Entry)
    ensures var empty := Block([], []);
            var s := Store(map[(1, e.hash) := e.from], map[]);
            var t := ApplyRun(s, 3, [empty, empty]);
            && Sound(s, 3) && t.Some?
            && Apply(s, 4, Block([], [e])).Some?
            && Apply(Unwound(t.value, 5, 3), 4, Block([], [e])).None?
  {
    var s := Store(map[(1, e.hash) := e.from], map[]);
    EmptyBlocksPrune(s, e);
    RevealOne(s, 4, e);
    RevealOne(Store(map[], map[]), 4, e);
    assert PendingAt(s, e.from, e.hash, 1);
  }

  lemma EmptyBlocksPrune(s: Store, e: Entry)
    requires s == Store(map[(1, e.hash) := e.from], map[])
    ensures ApplyRun(s, 3, [Block([], []), Block([], [])]) == Some(Store(map[], map[]))
    ensures Unwound(Store(map[], map[]), 5, 3) == Store(map[], map[])
  {
    var empty, none := Block([], []), Store(map[], map[]);
    assert Pruned(s, 4).pending == s.pending && Pruned(s, 4).spent == s.spent;
    assert Pruned(s, 5).pending == none.pending && Pruned(s, 5).spent == none.spent;
    EmptyBlock(s, 4);
    EmptyBlock(s, 5);
    assert [empty, empty][..1] == [empty] && [empty][..0] == [];
    assert ApplyRun(s, 3, [empty]) == Some(s);
    NothingUndone(5);
    NothingUndone(4);
    assert Unwound(none, 5, 3) == Unwound(none, 4, 3) == Unwound(none, 3, 3);
  }

  lemma EmptyBlock(s: Store, h: nat)
    ensures Apply(s, h, Block([], [])) == Some(Pruned(s, h))
  {
    assert CommitAll(s, h, []) == Some(s) && RevealAll(s, h, []) == Some(s);
  }

  lemma NothingUndone(h: nat)
    ensures Undone(Store(map[], map[]), h) == Store(map[], map[])
  {
    var u := Undone(Store(map[], map[]), h);
    assert u.pending == map[] && u.spent == map[];
  }

  lemma CommitOne(s: Store, h: nat, e: Entry)
    ensures Apply(s, h, Block([e], [])).Some? <==> !AlreadyPending(s, e.from, e.hash, h)
    ensures !AlreadyPending(s, e.from, e.hash, h) ==>
              Apply(s, h, Block([e], [])) == Some(Pruned(s.(pending := s.pending[(h, e.hash) := e.from]), h))
  {
    assert [e][..0] == [];
    assert CommitAll(s, h, [e]) == Commit(s, h, e);
  }

  /** What is pending at f is in the way of the same committer's hash at f + 1. */
  lemma PendingBelow(s: Store, f: nat, x: Key)
    requires Sound(s, f) && x in s.pending
    ensures AlreadyPending(s, s.pending[x], x.1, f + 1)
  {
    assert PendingAt(s, s.pending[x], x.1, x.0) && Low(f + 1, WINDOW + 1) <= x.0 < f + 1;
  }

  /** A committer's hash is pending once, so without that entry it is not pending. */
  lemma NotPending(u: Store, s: Store, f: nat, x: Key)
    requires Sound(s, f) && x in s.pending && x !in u.pending
    requires forall y :: y in u.pending ==> y in s.pending && u.pending[y] == s.pending[y]
    ensures !AlreadyPending(u, s.pending[x], x.1, f + 1)
  {
    var from := s.pending[x];
    assert PendingAt(s, from, x.1, x.0);
    assert forall g: nat :: PendingAt(u, from, x.1, g) ==> PendingAt(s, from, x.1, g);
  }

  lemma RevealOne(s: Store, h: nat, e: Entry)
    ensures Apply(s, h, Block([], [e])).Some? <==> Find(s, e.from, e.hash, h).Some?
  {
    assert [e][..0] == [];
    assert RevealAll(s, h, [e]) == Reveal(s, h, e);
  }
}
