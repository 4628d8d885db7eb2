/** The pending-commitment store over any number of reorgs against a replay of the chain. Pruning at the highest
    tip a block ever had above it is what the unwind cannot take back, so the comparison keeps that height. */
module CommitReplays {
  import opened Basics
  import opened CommitReveal

  /** The peaks of a chain: for each block the highest tip since it was applied. */
  type Peaks = seq<nat>

  /** A block applied at height top. */
  function Raised(peaks: Peaks, top: nat): (r: Peaks)
    ensures |r| == |peaks| + 1 && r[|peaks|] == top
    ensures forall i :: 0 <= i < |peaks| ==> r[i] == if peaks[i] < top then top else peaks[i]
  {
    seq(|peaks|, i requires 0 <= i < |peaks| => if peaks[i] < top then top else peaks[i]) + [top]
  }

  /** The journal row of the i-th block is that of the replay of blocks, unless some tip pruned it. */
  ghost predicate RowKept(s: Store, base: nat, blocks: seq<Block>, t: Store, peaks: Peaks, i: nat, x: Key)
    requires i < |blocks| == |peaks|
  {
    var h, r := base + 1 + i, ApplyRun(s, base, blocks[..i + 1]);
    r.Some? && Row(t, h, x) == if peaks[i] <= h + WINDOW then Row(r.value, h, x) else None
  }

  /** The journal of t holds the rows of the replay of blocks on s that no tip pruned (sealed). */
  ghost predicate RowsKept(s: Store, base: nat, blocks: seq<Block>, t: Store, peaks: Peaks) {
    forall seal {:trigger Opened(FATE, seal)} :: Opened(FATE, seal) ==>
      && |peaks| == |blocks|
      && forall i: nat, x: Key :: i < |blocks| && x.0 <= base + i ==> RowKept(s, base, blocks, t, peaks, i, x)
  }

  /** The store t of a node whose chain is blocks has what their replay on s has pending. */
  ghost predicate Matches(s: Store, base: nat, blocks: seq<Block>, t: Store, peaks: Peaks, r: Store) {
    && ApplyRun(s, base, blocks) == Some(r)
    && t.pending == r.pending
    && RowsKept(s, base, blocks, t, peaks)
  }

  // ---- a block ----

  lemma RowExtends(s: Store, base: nat, blocks: seq<Block>, t: Store, peaks: Peaks, b: Block, top: nat, v: Store,
                   i: nat, x: Key)
    requires i < |blocks| == |peaks| && top == base + |blocks| + 1 && x.0 <= base + i
    requires RowKept(s, base, blocks, t, peaks, i, x) && After(t, top, b.effects, v, x)
    ensures RowKept(s, base, blocks + [b], v, Raised(peaks, top), i, x)
  {
    assert (blocks + [b])[..i + 1] == blocks[..i + 1];
  }

  lemma RowAdded(s: Store, base: nat, blocks: seq<Block>, t: Store, peaks: Peaks, b: Block, top: nat, v: Store,
                 r: Store, w: Store, x: Key)
    requires |blocks| == |peaks| && top == base + |blocks| + 1 && t.pending == r.pending
    requires ApplyRun(s, base, blocks + [b]) == Some(w)
    requires After(t, top, b.effects, v, x) && After(r, top, b.effects, w, x)
    ensures RowKept(s, base, blocks + [b], v, Raised(peaks, top), |blocks|, x)
  {
    assert (blocks + [b])[..|blocks| + 1] == blocks + [b];
  }

  lemma ExtendRows(s: Store, base: nat, blocks: seq<Block>, t: Store, peaks: Peaks, b: Block, top: nat, v: Store,
                   r: Store, w: Store)
    requires top == base + |blocks| + 1 && Sound(t, top - 1) && Sound(r, top - 1) && WellFormed(b)
    requires t.pending == r.pending && RowsKept(s, base, blocks, t, peaks)
    requires Apply(t, top, b) == Some(v) && Apply(r, top, b) == Some(w)
    requires ApplyRun(s, base, blocks + [b]) == Some(w)
    ensures RowsKept(s, base, blocks + [b], v, Raised(peaks, top))
  {
    assert Opened(FATE, true);
    forall i: nat, x: Key | i < |blocks| + 1 && x.0 <= base + i
      ensures RowKept(s, base, blocks + [b], v, Raised(peaks, top), i, x)
    {
      ApplyAt(t, top, b, v, x);
      if i < |blocks| {
        RowExtends(s, base, blocks, t, peaks, b, top, v, i, x);
      } else {
        ApplyAt(r, top, b, w, x);
        RowAdded(s, base, blocks, t, peaks, b, top, v, r, w, x);
      }
    }
  }

  /** A block the node accepts is one the replay accepts, and they go on matching. */
  lemma ExtendMatches(s: Store, base: nat, blocks: seq<Block>, t: Store, peaks: Peaks, r: Store, b: Block, top: nat,
                      v: Store) returns (w: Store)
    requires Sound(s, base) && AllWellFormed(blocks) && WellFormed(b) && top == base + |blocks| + 1
    requires Sound(t, top - 1) && Matches(s, base, blocks, t, peaks, r) && Apply(t, top, b) == Some(v)
    ensures Apply(r, top, b) == Some(w) && Matches(s, base, blocks + [b], v, Raised(peaks, top), w)
  {
    ApplyAlike(t, r, top, b);
    w := Apply(r, top, b).value;
    LastBlock(s, base, blocks, b, blocks + [b], top);
    RunSound(s, base, blocks, r, top - 1);
    ExtendRows(s, base, blocks, t, peaks, b, top, v, r, w);
  }

  // ---- a rewind ----

  /** A commitment pending at height t outlives the blocks above it: revealed by one of them whose journal row
      no tip has pruned, or never revealed and within the window of the tip. */
  predicate Outlives(q: Store, t: nat, above: seq<Block>, tops: Peaks, x: Key)
    requires |tops| == |above|
  {
    var g := ConsumedAt(q, t, above, x);
    if g.Some? then tops[g.value - t - 1] <= g.value + WINDOW else t + |above| <= x.0 + WINDOW
  }

  ghost predicate AllOutlive(q: Store, t: nat, above: seq<Block>, tops: Peaks)
    requires |tops| == |above|
  {
    forall x :: x in q.pending ==> Outlives(q, t, above, tops, x)
  }

  /** Without an earlier, higher tip this is what one unwind keeps. */
  lemma FirstRewind(q: Store, t: nat, above: seq<Block>, tops: Peaks)
    requires |tops| == |above| && forall i :: 0 <= i < |tops| ==> tops[i] == t + |above|
    ensures AllOutlive(q, t, above, tops) <==> AllKept(q, t, above)
  {
    forall x ensures Outlives(q, t, above, tops, x) <==> Survives(q, t, above, x) {}
  }

  lemma {:induction false} RunSplit(s: Store, f: nat, p: seq<Block>, r: Store, t: nat, q: seq<Block>,
                                    all: seq<Block>)
    requires ApplyRun(s, f, p) == Some(r) && t == f + |p| && all == p + q
    ensures ApplyRun(s, f, all) == ApplyRun(r, t, q)
    decreases |q|
  {
    if q == [] {
      assert all == p;
    } else {
      var front, last := q[..|q| - 1], q[|q| - 1];
      var part := p + front;
      RunSplit(s, f, p, r, t, front, part);
      Regrouped(p, front, last, q, part, all);
      SplitStep(s, f, part, r, t, front, last, all, q, t + |q|);
    }
  }

  lemma Regrouped(p: seq<Block>, front: seq<Block>, last: Block, q: seq<Block>, part: seq<Block>, all: seq<Block>)
    requires q == front + [last] && part == p + front && all == p + q
    ensures all == part + [last]
  {}

  lemma SplitStep(s: Store, f: nat, part: seq<Block>, r: Store, t: nat, front: seq<Block>, last: Block,
                  all: seq<Block>, q: seq<Block>, tip: nat)
    requires ApplyRun(s, f, part) == ApplyRun(r, t, front) && all == part + [last] && q == front + [last]
    requires tip == f + |all| == t + |q|
    ensures ApplyRun(s, f, all) == ApplyRun(r, t, q)
  {
    LastBlock(s, f, part, last, all, tip);
    LastBlock(r, t, front, last, q, tip);
  }

  lemma LastBlock(s: Store, f: nat, front: seq<Block>, last: Block, all: seq<Block>, tip: nat)
    requires all == front + [last] && tip == f + |all|
    ensures ApplyRun(s, f, all)
         == var m := ApplyRun(s, f, front);
            if m.None? then None else Apply(m.value, tip, last)
  {
    assert all[..|all| - 1] == front;
  }

  /** Which of the blocks reveals first does not depend on later blocks. */
  lemma {:induction false} FirstOfPrefix(blocks: seq<Block>, n: nat, e: Entry)
    requires n <= |blocks|
    ensures FirstReveal(blocks[..n], e)
         == var k := FirstReveal(blocks, e);
            if k.Some? && k.value < n then k else None
  {
    var k, j := FirstReveal(blocks, e), FirstReveal(blocks[..n], e);
    assert forall i :: 0 <= i < n ==> blocks[..n][i] == blocks[i];
    assert j.Some? ==> e in blocks[j.value].effects;
    assert k.Some? && k.value < n ==> e in blocks[..n][k.value].effects;
  }

  lemma ConsumedInPrefix(q: Store, t: nat, above: seq<Block>, part: seq<Block>, x: Key, h: nat)
    requires part <= above && h == t + |part|
    ensures ConsumedAt(q, t, part, x) == Some(h) <==> part != [] && ConsumedAt(q, t, above, x) == Some(h)
  {
    assert part == above[..|part|];
    if x in q.pending {
      FirstOfPrefix(above, |part|, Entry(x.1, q.pending[x]));
    }
  }

  lemma FateRow(q: Store, t: nat, part: seq<Block>, m: Store, h: nat, x: Key)
    requires Fate(q, t, part, m, h, x) && t < h
    ensures Row(m, h, x) == if ConsumedAt(q, t, part, x) == Some(h) then Lookup(q.pending, x) else None
  {
    assert Opened(FATE, true);
  }

  /** The row of the last block of a part above t, said of the store q of height t and the blocks above it. */
  lemma RowAbove(q: Store, t: nat, above: seq<Block>, part: seq<Block>, h: nat, m: Store, x: Key)
    requires Sound(q, t) && AllWellFormed(above) && part <= above && part != [] && h == t + |part| && x.0 <= t
    requires ApplyRun(q, t, part) == Some(m)
    ensures Row(m, h, x) == if ConsumedAt(q, t, above, x) == Some(h) then Lookup(q.pending, x) else None
  {
    assert AllWellFormed(part);
    RunAt(q, t, part, m, h, x);
    FateRow(q, t, part, m, h, x);
    ConsumedInPrefix(q, t, above, part, x, h);
  }

  /** The node's journal row at height h, said of the store q the replay has at height t. */
  ghost predicate RowIs(q: Store, t: nat, above: seq<Block>, n: Store, x: Key, h: nat, top: nat) {
    var g := ConsumedAt(q, t, above, x);
    Row(n, h, x) == if g == Some(h) && top <= h + WINDOW then Lookup(q.pending, x) else None
  }

  ghost predicate HeldRowIs(q: Store, t: nat, above: seq<Block>, tops: Peaks, n: Store, x: Key, h: nat)
    requires |tops| == |above| && t < h <= t + |above|
  {
    RowIs(q, t, above, n, x, h, tops[h - t - 1])
  }

  /** What the node holds at a key of height t and of its rows above t. */
  ghost predicate Held(q: Store, t: nat, above: seq<Block>, tops: Peaks, n: Store, x: Key)
    requires |tops| == |above|
  {
    var g := ConsumedAt(q, t, above, x);
    && Lookup(n.pending, x) == (if g.None? && t + |above| <= x.0 + WINDOW then Lookup(q.pending, x) else None)
    && (forall h: nat :: t < h <= t + |above| ==> HeldRowIs(q, t, above, tops, n, x, h))
    && (forall h: nat :: h > t + |above| ==> Row(n, h, x).None?)
  }

  lemma HeldUnwinds(q: Store, t: nat, above: seq<Block>, tops: Peaks, n: Store, tip: nat, x: Key)
    requires |tops| == |above| && tip == t + |above| && x.0 <= t && Held(q, t, above, tops, n, x)
    ensures Lookup(Unwound(n, tip, t).pending, x)
         == if Outlives(q, t, above, tops, x) then Lookup(q.pending, x) else None
  {
    var g := ConsumedAt(q, t, above, x);
    forall h: nat | t < h && g != Some(h) ensures Row(n, h, x).None? {
      assert h <= tip ==> HeldRowIs(q, t, above, tops, n, x, h);
    }
    assert g.Some? ==> HeldRowIs(q, t, above, tops, n, x, g.value);
    if g.Some? && tops[g.value - t - 1] <= g.value + WINDOW {
      UnwoundRestores(n, tip, t, x, g.value);
    } else {
      UnwoundKeeps(n, tip, t, x);
    }
  }

  /** The replay of the blocks above t, from the store q it has at t. */
  lemma ReplayAbove(s: Store, base: nat, under: seq<Block>, q: Store, t: nat, part: seq<Block>, all: seq<Block>,
                    m: Store)
    requires all == under + part && t == base + |under| && ApplyRun(s, base, under) == Some(q)
    requires ApplyRun(s, base, all) == Some(m)
    ensures ApplyRun(q, t, part) == Some(m)
  {
    RunSplit(s, base, under, q, t, part, all);
  }

  lemma KeptRow(s: Store, base: nat, blocks: seq<Block>, n: Store, peaks: Peaks, i: nat, all: seq<Block>, h: nat,
                m: Store, x: Key)
    requires i < |blocks| == |peaks| && RowKept(s, base, blocks, n, peaks, i, x) && h == base + 1 + i
    requires all == blocks[..i + 1] && ApplyRun(s, base, all) == Some(m)
    ensures Row(n, h, x) == if peaks[i] <= h + WINDOW then Row(m, h, x) else None
  {}

  lemma HeldRow(s: Store, base: nat, blocks: seq<Block>, n: Store, peaks: Peaks, under: seq<Block>, above: seq<Block>,
                t: nat, q: Store, i: nat, h: nat, top: nat, x: Key)
    requires blocks == under + above && |peaks| == |blocks| && t == base + |under| && x.0 <= t
    requires |under| <= i < |blocks| && h == base + 1 + i && top == peaks[i]
    requires Sound(q, t) && AllWellFormed(above) && ApplyRun(s, base, under) == Some(q)
    requires RowKept(s, base, blocks, n, peaks, i, x)
    ensures RowIs(q, t, above, n, x, h, top)
  {
    var all, part := blocks[..i + 1], above[..i + 1 - |under|];
    var m := ApplyRun(s, base, all).value;
    KeptRow(s, base, blocks, n, peaks, i, all, h, m, x);
    assert all == under + part;
    ReplayAbove(s, base, under, q, t, part, all, m);
    RowAbove(q, t, above, part, h, m, x);
  }

  lemma HeldPending(s: Store, base: nat, blocks: seq<Block>, under: seq<Block>, above: seq<Block>, t: nat, q: Store,
                    r: Store, tip: nat, x: Key)
    requires blocks == under + above && t == base + |under| && tip == base + |blocks| && x.0 <= t
    requires Sound(q, t) && AllWellFormed(above) && ApplyRun(s, base, under) == Some(q)
    requires ApplyRun(s, base, blocks) == Some(r)
    ensures Lookup(r.pending, x)
         == if ConsumedAt(q, t, above, x).None? && tip <= x.0 + WINDOW then Lookup(q.pending, x) else None
  {
    ReplayAbove(s, base, under, q, t, above, blocks, r);
    RunAt(q, t, above, r, tip, x);
    assert Opened(FATE, true);
  }

  lemma HeldRowAt(s: Store, base: nat, blocks: seq<Block>, n: Store, peaks: Peaks, under: seq<Block>,
                  above: seq<Block>, tops: Peaks, t: nat, q: Store, h: nat, x: Key)
    requires blocks == under + above && RowsKept(s, base, blocks, n, peaks)
    requires |peaks| == |blocks| && tops == peaks[|under|..] && t == base + |under| && x.0 <= t
    requires Sound(q, t) && AllWellFormed(above) && ApplyRun(s, base, under) == Some(q) && t < h <= t + |above|
    ensures HeldRowIs(q, t, above, tops, n, x, h)
  {
    var i: nat := h - base - 1;
    var top := peaks[i];
    TopIs(peaks, |under|, i, tops, h - t - 1, top);
    RowIsKept(s, base, blocks, n, peaks, i, x);
    HeldRow(s, base, blocks, n, peaks, under, above, t, q, i, h, top, x);
    TopAt(q, t, above, tops, n, x, h, top);
  }

  lemma TopIs(peaks: Peaks, k: nat, i: nat, tops: Peaks, j: nat, top: nat)
    requires k <= |peaks| && tops == peaks[k..] && i == k + j < |peaks| && top == peaks[i]
    ensures top == tops[j]
  {}

  lemma TopAt(q: Store, t: nat, above: seq<Block>, tops: Peaks, n: Store, x: Key, h: nat, top: nat)
    requires |tops| == |above| && t < h <= t + |above| && top == tops[h - t - 1]
    requires RowIs(q, t, above, n, x, h, top)
    ensures HeldRowIs(q, t, above, tops, n, x, h)
  {}

  lemma NoneBeyond(n: Store, tip: nat, x: Key)
    requires Sound(n, tip)
    ensures forall h: nat :: h > tip ==> Row(n, h, x).None?
  {}

  /** What the node holds, in terms of the replay's store at t. */
  lemma HeldAbove(s: Store, base: nat, blocks: seq<Block>, n: Store, peaks: Peaks, r: Store, under: seq<Block>,
                  above: seq<Block>, tops: Peaks, t: nat, q: Store, tip: nat, x: Key)
    requires blocks == under + above && AllWellFormed(above) && Matches(s, base, blocks, n, peaks, r)
    requires |peaks| == |blocks| && tops == peaks[|under|..] && t == base + |under| && tip == t + |above| && x.0 <= t
    requires Sound(n, tip) && Sound(q, t) && ApplyRun(s, base, under) == Some(q)
    ensures Held(q, t, above, tops, n, x)
  {
    HeldPending(s, base, blocks, under, above, t, q, r, tip, x);
    NoneBeyond(n, tip, x);
    forall h: nat | t < h <= tip ensures HeldRowIs(q, t, above, tops, n, x, h) {
      HeldRowAt(s, base, blocks, n, peaks, under, above, tops, t, q, h, x);
    }
  }

  lemma RowIsKept(s: Store, base: nat, blocks: seq<Block>, n: Store, peaks: Peaks, i: nat, x: Key)
    requires RowsKept(s, base, blocks, n, peaks) && i < |blocks| == |peaks| && x.0 <= base + i
    ensures RowKept(s, base, blocks, n, peaks, i, x)
  {
    assert Opened(FATE, true);
  }

  /** What the unwind to t leaves pending at a key. */
  lemma RewindAt(s: Store, base: nat, blocks: seq<Block>, n: Store, peaks: Peaks, r: Store, under: seq<Block>,
                 above: seq<Block>, tops: Peaks, t: nat, q: Store, tip: nat, x: Key)
    requires blocks == under + above && AllWellFormed(above) && Matches(s, base, blocks, n, peaks, r)
    requires |peaks| == |blocks| && tops == peaks[|under|..] && t == base + |under| && tip == t + |above|
    requires Sound(n, tip) && Sound(q, t) && ApplyRun(s, base, under) == Some(q)
    ensures Lookup(Unwound(n, tip, t).pending, x)
         == if x in q.pending && Outlives(q, t, above, tops, x) then Lookup(q.pending, x) else None
  {
    if x.0 <= t {
      HeldAbove(s, base, blocks, n, peaks, r, under, above, tops, t, q, tip, x);
      HeldUnwinds(q, t, above, tops, n, tip, x);
    } else {
      UnwoundDrops(n, tip, t, x);
    }
  }

  /** The unwind gives the replay's pending commitments exactly when every one of them outlives the blocks above. */
  lemma RewindIff(s: Store, base: nat, blocks: seq<Block>, n: Store, peaks: Peaks, r: Store, under: seq<Block>,
                  above: seq<Block>, tops: Peaks, t: nat, q: Store, tip: nat)
    requires blocks == under + above && AllWellFormed(above) && Matches(s, base, blocks, n, peaks, r)
    requires |peaks| == |blocks| && tops == peaks[|under|..] && t == base + |under| && tip == t + |above|
    requires Sound(n, tip) && Sound(q, t) && ApplyRun(s, base, under) == Some(q)
    ensures Unwound(n, tip, t).pending == q.pending <==> AllOutlive(q, t, above, tops)
  {
    var u := Unwound(n, tip, t);
    forall x: Key
      ensures Lookup(u.pending, x)
           == if x in q.pending && Outlives(q, t, above, tops, x) then Lookup(q.pending, x) else None
    {
      RewindAt(s, base, blocks, n, peaks, r, under, above, tops, t, q, tip, x);
    }
    if AllOutlive(q, t, above, tops) {
      SameLookups(u.pending, q.pending);
    } else {
      var x :| x in q.pending && !Outlives(q, t, above, tops, x);
      assert Lookup(u.pending, x).None?;
    }
  }

  lemma RewindRows(s: Store, base: nat, blocks: seq<Block>, n: Store, peaks: Peaks, under: seq<Block>, t: nat, tip: nat)
    requires RowsKept(s, base, blocks, n, peaks) && |peaks| == |blocks| && under <= blocks && t == base + |under|
    ensures RowsKept(s, base, under, Unwound(n, tip, t), peaks[..|under|])
  {
    assert Opened(FATE, true);
    var u, low := Unwound(n, tip, t), peaks[..|under|];
    forall i: nat, x: Key | i < |under| && x.0 <= base + i ensures RowKept(s, base, under, u, low, i, x) {
      assert RowKept(s, base, blocks, n, peaks, i, x);
      UnwoundSpent(n, tip, t, (base + 1 + i, x.1));
      assert under[..i + 1] == blocks[..i + 1];
    }
  }

  /** The node goes on matching the replay of its shortened chain exactly when they all do. */
  lemma RewindMatches(s: Store, base: nat, blocks: seq<Block>, n: Store, peaks: Peaks, r: Store, under: seq<Block>,
                      above: seq<Block>, tops: Peaks, t: nat, q: Store, tip: nat)
    requires blocks == under + above && AllWellFormed(above) && Matches(s, base, blocks, n, peaks, r)
    requires |peaks| == |blocks| && tops == peaks[|under|..] && t == base + |under| && tip == t + |above|
    requires Sound(n, tip) && Sound(q, t) && ApplyRun(s, base, under) == Some(q)
    ensures Matches(s, base, under, Unwound(n, tip, t), peaks[..|under|], q) <==> AllOutlive(q, t, above, tops)
  {
    RewindIff(s, base, blocks, n, peaks, r, under, above, tops, t, q, tip);
    RewindRows(s, base, blocks, n, peaks, under, t, tip);
  }

  // ---- the last tip is not enough ----

  /** Two reorgs that each keep every commitment by the tip they unwind from, and lose one together: it is recorded
      at height 1 and revealed at height 2, height 6 prunes the journal row, the reorg to height 3 leaves that height
      as it is, and the reorg to height 1 finds no row. */
  lemma KeptByTipLoses(e: Entry)
    ensures var none, quiet, opens := Store(map[], map[]), Block([], []), Block([], [e]);
            var first, third := Told(e, 1), Told(e, 3);
            && ApplyRun(none, 0, Tale(e, 1)) == Some(first) && ApplyRun(none, 0, Tale(e, 3)) == Some(third)
            && ApplyRun(none, 0, Tale(e, 6)) == Some(none)
            && Tale(e, 3) == Tale(e, 1) + [opens, quiet] && Tale(e, 6) == Tale(e, 3) + [quiet, quiet, quiet]
            && AllKept(third, 3, [quiet, quiet, quiet]) && AllKept(first, 1, [opens, quiet])
            && Unwound(Unwound(none, 6, 3), 3, 1).pending != first.pending
  {
    TaleRuns(e, 1);
    TaleRuns(e, 3);
    TaleRuns(e, 6);
    TaleParts(e);
    RevealedAtTwo(e);
    NothingUnwound(6, 3);
    NothingUnwound(3, 1);
    assert (1, e.hash) in Told(e, 1).pending;
  }

  /** A commitment, its reveal, and quiet blocks up to height k. */
  function Tale(e: Entry, k: nat): (r: seq<Block>)
    ensures |r| == k
  {
    if k == 0 then []
    else Tale(e, k - 1) + [if k == 1 then Block([e], []) else if k == 2 then Block([], [e]) else Block([], [])]
  }

  /** What it leaves: the commitment, then its journal row, then nothing. */
  function Told(e: Entry, k: nat): (r: Store) {
    if k == 1 then Store(map[(1, e.hash) := e.from], map[])
    else if 2 <= k <= 5 then Store(map[], map[(2, e.hash) := (1, e.from)])
    else Store(map[], map[])
  }

  lemma TaleNext(e: Entry, k: nat, b: Block)
    requires 0 < k <= 6 && b == Tale(e, k)[k - 1]
    ensures Apply(Told(e, k - 1), k, b) == Some(Told(e, k))
  {
    var s := Told(e, k - 1);
    if k == 1 {
      CommitOne(s, 1, e);
      assert Apply(s, k, b).value.pending == Told(e, k).pending && Apply(s, k, b).value.spent == Told(e, k).spent;
    } else if k == 2 {
      RevealNext(s, e);
    } else {
      EmptyBlock(s, k);
      assert Pruned(s, k).pending == Told(e, k).pending && Pruned(s, k).spent == Told(e, k).spent;
    }
  }

  lemma RevealNext(s: Store, e: Entry)
    requires s == Store(map[(1, e.hash) := e.from], map[])
    ensures Apply(s, 2, Block([], [e])) == Some(Store(map[], map[(2, e.hash) := (1, e.from)]))
  {
    assert [e][..0] == [];
    assert PendingAt(s, e.from, e.hash, 1);
    var u := Reveal(s, 2, e).value;
    assert RevealAll(s, 2, [e]) == Some(u);
    assert u.pending == map[] && u.spent == map[(2, e.hash) := (1, e.from)];
    assert Pruned(u, 2).pending == u.pending && Pruned(u, 2).spent == u.spent;
  }

  lemma {:induction false} TaleRuns(e: Entry, k: nat)
    requires k <= 6
    ensures ApplyRun(Store(map[], map[]), 0, Tale(e, k)) == Some(Told(e, k))
  {
    if k > 0 {
      TaleRuns(e, k - 1);
      LastBlock(Store(map[], map[]), 0, Tale(e, k - 1), Tale(e, k)[k - 1], Tale(e, k), k);
      TaleNext(e, k, Tale(e, k)[k - 1]);
    }
  }

  lemma TaleParts(e: Entry)
    ensures Tale(e, 3) == Tale(e, 1) + [Block([], [e]), Block([], [])]
    ensures Tale(e, 6) == Tale(e, 3) + [Block([], []), Block([], []), Block([], [])]
  {
    assert Tale(e, 3) == Tale(e, 2) + [Block([], [])] && Tale(e, 2) == Tale(e, 1) + [Block([], [e])];
    assert Tale(e, 6) == Tale(e, 5) + [Block([], [])] && Tale(e, 5) == Tale(e, 4) + [Block([], [])];
    assert Tale(e, 4) == Tale(e, 3) + [Block([], [])];
  }

  lemma RevealedAtTwo(e: Entry)
    ensures AllKept(Told(e, 1), 1, [Block([], [e]), Block([], [])])
  {
    var above := [Block([], [e]), Block([], [])];
    assert e in above[0].effects;
    forall x | x in Told(e, 1).pending ensures Survives(Told(e, 1), 1, above, x) {
      assert x == (1, e.hash) && Entry(x.1, e.from) == e;
      assert FirstReveal(above, e) == Some(0);
    }
  }

  lemma {:induction false} NothingUnwound(tip: nat, f: nat)
    ensures Unwound(Store(map[], map[]), tip, f) == Store(map[], map[])
    decreases tip
  {
    if f < tip {
      NothingUndone(tip);
      NothingUnwound(tip - 1, f);
    }
  }
}
