/** One archived state domain of ngstate/changeset.go: a plain bucket, its block-major changeset of
    pre-images and its address-major change index. The reference is a plain list of snapshots. */
module Domains {
  import opened Basics

  /** state: the live values. cs: (height, key) -> the value that held before that height's first write
      (None: absent). hist: the (key, height) pairs of the change index, kept only by indexed domains. */
  datatype Domain<!K(==), V> = Domain(
    indexed: bool, state: map<K, V>, cs: map<(nat, K), Option<V>>, hist: set<(K, nat)>)

  datatype Write<K, V> = Write(key: K, value: Option<V>)

  /** recordBal / recordContract / recordKey / recordBeacon: the first write of a block wins. */
  function Record<K, V>(d: Domain<K, V>, h: nat, k: K): (r: Domain<K, V>) {
    if (h, k) in d.cs then d
    else d.(cs := d.cs[(h, k) := Lookup(d.state, k)], hist := if d.indexed then d.hist + {(k, h)} else d.hist)
  }

  /** A write helper: capture the pre-image, then put or delete. */
  function Put<K(!new), V>(d: Domain<K, V>, h: nat, w: Write<K, V>): (r: Domain<K, V>) {
    var r := Record(d, h, w.key);
    r.(state := Assign(r.state, w.key, w.value))
  }

  /** A block's writes, in order. */
  function PutAll<K(!new), V>(d: Domain<K, V>, h: nat, ws: seq<Write<K, V>>): (r: Domain<K, V>) {
    if ws == [] then d else Put(PutAll(d, h, ws[..|ws| - 1]), h, ws[|ws| - 1])
  }

  /** What revertDomain leaves at a key. */
  function Restored<K, V>(d: Domain<K, V>, h: nat, k: K): (r: Option<V>) {
    if (h, k) in d.cs then d.cs[(h, k)] else Lookup(d.state, k)
  }

  /** revertDomain at height h: put the pre-images back, drop that height's changeset and index rows. */
  function Reverted<K(!new), V>(d: Domain<K, V>, h: nat): (r: Domain<K, V>)
    ensures forall k :: Lookup(r.state, k) == Restored(d, h, k)
  {
    var keys := d.state.Keys + set x | x in d.cs && x.0 == h :: x.1;
    d.(state := map k | k in keys && Restored(d, h, k).Some? :: Restored(d, h, k).value,
       cs := map x | x in d.cs && x.0 != h :: d.cs[x],
       hist := set x | x in d.hist && !(x.1 == h && (h, x.0) in d.cs))
  }

  // ---- undo ----

  ghost predicate NoRowsAt<K(!new), V(!new)>(d: Domain<K, V>, h: nat) {
    && (forall k :: (h, k) !in d.cs)
    && (forall k :: (k, h) !in d.hist)
  }

  ghost predicate NoRowsAbove<K(!new), V(!new)>(d: Domain<K, V>, f: nat) {
    && (forall x :: x in d.cs ==> x.0 <= f)
    && (forall x :: x in d.hist ==> x.1 <= f)
  }

  /** The domain inside a block at height h that started from d. */
  ghost predicate Inside<K(!new), V(!new)>(d: Domain<K, V>, e: Domain<K, V>, h: nat) {
    && e.indexed == d.indexed
    && (forall x: (nat, K) :: x.0 != h ==> Lookup(e.cs, x) == Lookup(d.cs, x))
    && (forall k :: (h, k) in e.cs ==> e.cs[(h, k)] == Lookup(d.state, k))
    && (forall k :: (h, k) !in e.cs ==> Lookup(e.state, k) == Lookup(d.state, k))
    && (forall x :: x in e.hist <==> x in d.hist || (d.indexed && x.1 == h && (h, x.0) in e.cs))
  }

  lemma StartInside<K(!new), V(!new)>(d: Domain<K, V>, h: nat)
    requires NoRowsAt(d, h)
    ensures Inside(d, d, h)
  {}

  lemma PutInside<K(!new), V(!new)>(d: Domain<K, V>, e: Domain<K, V>, h: nat, w: Write<K, V>)
    requires Inside(d, e, h)
    ensures Inside(d, Put(e, h, w), h)
  {}

  lemma {:induction false} PutAllInside<K(!new), V(!new)>(d: Domain<K, V>, h: nat, ws: seq<Write<K, V>>)
    requires NoRowsAt(d, h)
    ensures Inside(d, PutAll(d, h, ws), h)
  {
    if ws != [] {
      PutAllInside(d, h, ws[..|ws| - 1]);
      PutInside(d, PutAll(d, h, ws[..|ws| - 1]), h, ws[|ws| - 1]);
    }
  }

  lemma RowsEnd<K(!new), V(!new)>(d: Domain<K, V>, h: nat)
    requires h > 0 && NoRowsAbove(d, h - 1)
    ensures NoRowsAt(d, h)
  {
    forall k ensures (h, k) !in d.cs && (k, h) !in d.hist {
      assert (h, k).0 == h && (k, h).1 == h;
    }
  }

  lemma InsideRows<K(!new), V(!new)>(d: Domain<K, V>, e: Domain<K, V>, h: nat)
    requires h > 0 && NoRowsAbove(d, h - 1) && Inside(d, e, h)
    ensures NoRowsAbove(e, h)
  {
    forall x | x in e.cs ensures x.0 <= h {
      if x.0 != h {
        assert Lookup(e.cs, x) == Lookup(d.cs, x);
      }
    }
  }

  /** Reverting a height undoes everything written inside it. */
  lemma RevertInside<K(!new), V(!new)>(d: Domain<K, V>, e: Domain<K, V>, h: nat)
    requires NoRowsAt(d, h) && Inside(d, e, h)
    ensures Reverted(e, h) == d
  {
    var r := Reverted(e, h);
    SameLookups(r.state, d.state);
    forall x ensures Lookup(r.cs, x) == Lookup(d.cs, x) {
      if x.0 == h {
        assert (h, x.1) !in d.cs;
      } else {
        assert Lookup(e.cs, x) == Lookup(d.cs, x);
      }
    }
    SameLookups(r.cs, d.cs);
    forall x ensures x in r.hist <==> x in d.hist {
      if x.1 == h {
        assert (x.0, h) !in d.hist;
      }
    }
    assert r.hist == d.hist;
  }

  lemma BlockUndone<K(!new), V(!new)>(d: Domain<K, V>, h: nat, ws: seq<Write<K, V>>)
    requires h > 0 && NoRowsAbove(d, h - 1)
    ensures Reverted(PutAll(d, h, ws), h) == d
  {
    RowsEnd(d, h);
    PutAllInside(d, h, ws);
    RevertInside(d, PutAll(d, h, ws), h);
  }

  /** Blocks applied at heights f+1, f+2, ... */
  function ApplyBlocks<K(!new), V>(d: Domain<K, V>, f: nat, blocks: seq<seq<Write<K, V>>>): (r: Domain<K, V>) {
    if blocks == [] then d
    else PutAll(ApplyBlocks(d, f, blocks[..|blocks| - 1]), f + |blocks|, blocks[|blocks| - 1])
  }

  /** UnwindToTxn's loop: revert tip, tip-1, ..., target+1. */
  function Unwound<K(!new), V>(d: Domain<K, V>, tip: nat, target: nat): (r: Domain<K, V>)
    decreases tip
  {
    if tip <= target then d else Unwound(Reverted(d, tip), tip - 1, target)
  }

  lemma {:induction false} ApplyBlocksRows<K(!new), V(!new)>(d: Domain<K, V>, f: nat, blocks: seq<seq<Write<K, V>>>)
    requires NoRowsAbove(d, f)
    ensures NoRowsAbove(ApplyBlocks(d, f, blocks), f + |blocks|)
  {
    if blocks != [] {
      var e := ApplyBlocks(d, f, blocks[..|blocks| - 1]);
      ApplyBlocksRows(d, f, blocks[..|blocks| - 1]);
      RowsEnd(e, f + |blocks|);
      PutAllInside(e, f + |blocks|, blocks[|blocks| - 1]);
      InsideRows(e, ApplyBlocks(d, f, blocks), f + |blocks|);
    }
  }

  /** Unwind is an exact undo: values, changeset and index are those of height f. */
  lemma {:induction false} UnwindUndoes<K(!new), V(!new)>(d: Domain<K, V>, f: nat, blocks: seq<seq<Write<K, V>>>,
                                          e: Domain<K, V>, tip: nat)
    requires NoRowsAbove(d, f) && e == ApplyBlocks(d, f, blocks) && tip == f + |blocks|
    ensures Unwound(e, tip, f) == d
  {
    if blocks != [] {
      var front := blocks[..|blocks| - 1];
      var mid := ApplyBlocks(d, f, front);
      ApplyBlocksRows(d, f, front);
      BlockUndone(mid, tip, blocks[|blocks| - 1]);
      UnwindUndoes(d, f, front, mid, tip - 1);
    }
  }

  // ---- history against snapshots ----

  /** A key without a changeset row at a height did not change there. */
  ghost predicate KeptOrRecorded<K, V>(d: Domain<K, V>, base: nat, snaps: seq<map<K, V>>, i: nat, k: K)
    requires 0 < i < |snaps|
  {
    (base + i, k) in d.cs || Lookup(snaps[i], k) == Lookup(snaps[i - 1], k)
  }

  /** snaps[i] is the plain state at the end of height base+i; the domain stands at the last of them. Rows
      of the base and below (a genesis block writes at height 0) say nothing about the snapshots. */
  ghost predicate Tracks<K(!new), V(!new)>(d: Domain<K, V>, base: nat, snaps: seq<map<K, V>>) {
    && snaps != []
    && d.indexed
    && d.state == snaps[|snaps| - 1]
    && (forall x :: x in d.cs ==> x.0 < base + |snaps|)
    && (forall x :: x in d.cs && base < x.0 ==> d.cs[x] == Lookup(snaps[x.0 - base - 1], x.1))
    && (forall i, k :: 0 < i < |snaps| ==> KeptOrRecorded(d, base, snaps, i, k))
    && (forall x :: x in d.hist <==> (x.1, x.0) in d.cs)
  }

  /** A block's writes append the snapshot they end in. */
  lemma InsideTracks<K(!new), V(!new)>(d: Domain<K, V>, base: nat, snaps: seq<map<K, V>>, e: Domain<K, V>, h: nat)
    requires Tracks(d, base, snaps) && h == base + |snaps| && Inside(d, e, h)
    ensures Tracks(e, base, snaps + [e.state])
  {
    var after := snaps + [e.state];
    forall x | x in e.cs
      ensures x.0 < base + |after| && (base < x.0 ==> e.cs[x] == Lookup(after[x.0 - base - 1], x.1))
    {
      if x.0 != h {
        assert Lookup(e.cs, x) == Lookup(d.cs, x);
      } else {
        assert (h, x.1) in e.cs;
      }
    }
    forall i, k | 0 < i < |after| ensures KeptOrRecorded(e, base, after, i, k) {
      if base + i != h {
        assert Lookup(e.cs, (base + i, k)) == Lookup(d.cs, (base + i, k));
        assert KeptOrRecorded(d, base, snaps, i, k);
      }
    }
    forall x ensures x in e.hist <==> (x.1, x.0) in e.cs {
      if x.1 != h {
        assert Lookup(e.cs, (x.1, x.0)) == Lookup(d.cs, (x.1, x.0));
      }
    }
  }

  lemma TracksEnd<K(!new), V(!new)>(d: Domain<K, V>, base: nat, snaps: seq<map<K, V>>, h: nat)
    requires Tracks(d, base, snaps) && h == base + |snaps|
    ensures NoRowsAt(d, h)
  {
    forall k ensures (h, k) !in d.cs && (k, h) !in d.hist {
      assert (h, k) in d.cs ==> (h, k).0 < base + |snaps|;
    }
  }

  /** Applying a block appends the snapshot it ends in. */
  lemma ApplyTracks<K(!new), V(!new)>(d: Domain<K, V>, base: nat, snaps: seq<map<K, V>>, ws: seq<Write<K, V>>, h: nat)
    requires Tracks(d, base, snaps) && h == base + |snaps|
    ensures var e := PutAll(d, h, ws); Tracks(e, base, snaps + [e.state])
  {
    TracksEnd(d, base, snaps, h);
    PutAllInside(d, h, ws);
    InsideTracks(d, base, snaps, PutAll(d, h, ws), h);
  }

  /** Reverting the tip drops its snapshot. */
  lemma RevertTracks<K(!new), V(!new)>(d: Domain<K, V>, base: nat, snaps: seq<map<K, V>>, h: nat)
    requires |snaps| > 1 && Tracks(d, base, snaps) && h == base + |snaps| - 1
    ensures Tracks(Reverted(d, h), base, snaps[..|snaps| - 1])
  {
    var r, before := Reverted(d, h), snaps[..|snaps| - 1];
    forall k ensures Lookup(r.state, k) == Lookup(before[|before| - 1], k) {
      assert KeptOrRecorded(d, base, snaps, |snaps| - 1, k);
    }
    SameLookups(r.state, before[|before| - 1]);
    forall i, k | 0 < i < |before| ensures KeptOrRecorded(r, base, before, i, k) {
      assert KeptOrRecorded(d, base, snaps, i, k);
    }
    RevertedRows(d, h);
  }

  lemma RevertedRows<K(!new), V>(d: Domain<K, V>, h: nat)
    requires forall x :: x in d.hist <==> (x.1, x.0) in d.cs
    ensures var r := Reverted(d, h);
            && (forall x :: x in r.cs <==> x in d.cs && x.0 != h)
            && (forall x :: x in r.cs ==> r.cs[x] == d.cs[x])
            && (forall x :: x in r.hist <==> (x.1, x.0) in r.cs)
  {
    var r := Reverted(d, h);
    forall x ensures x in r.hist <==> (x.1, x.0) in r.cs {
      if x.1 == h {
        assert (h, x.0) == (x.1, x.0);
      }
    }
  }

  lemma {:induction false} UnwoundTracks<K(!new), V(!new)>(d: Domain<K, V>, base: nat, snaps: seq<map<K, V>>,
                                                           tip: nat, target: nat)
    requires Tracks(d, base, snaps) && base <= target <= tip == base + |snaps| - 1
    ensures Tracks(Unwound(d, tip, target), base, snaps[..target - base + 1])
    decreases tip
  {
    if tip <= target {
      assert snaps[..target - base + 1] == snaps;
    } else {
      RevertTracks(d, base, snaps, tip);
      UnwoundTracks(Reverted(d, tip), base, snaps[..|snaps| - 1], tip - 1, target);
      assert snaps[..|snaps| - 1][..target - base + 1] == snaps[..target - base + 1];
    }
  }

  /** firstChangeHeightAfter: the least indexed change height above the target. */
  ghost predicate IsFirstChange<K(!new)>(hist: set<(K, nat)>, k: K, target: nat, r: Option<nat>) {
    match r
    case None => forall h: nat :: h > target ==> (k, h) !in hist
    case Some(m) => m > target && (k, m) in hist && forall h: nat :: target < h < m ==> (k, h) !in hist
  }

  /** balanceAtHeight / contractAtHeight: the pre-image at the first change above, else the live value. */
  function ReadAt<K, V>(d: Domain<K, V>, k: K, first: Option<nat>): (r: Option<V>) {
    match first
    case None => Lookup(d.state, k)
    case Some(m) => if (m, k) in d.cs then d.cs[(m, k)] else None
  }

  /** A historical read returns what held at the end of that height. */
  lemma HistoricalRead<K(!new), V(!new)>(d: Domain<K, V>, base: nat, snaps: seq<map<K, V>>, k: K, height: nat,
                         first: Option<nat>)
    requires Tracks(d, base, snaps) && base <= height < base + |snaps|
    requires IsFirstChange(d.hist, k, height, first)
    ensures ReadAt(d, k, first) == Lookup(snaps[height - base], k)
  {
    match first
    case None =>
      Quiet(d, base, snaps, k, height - base, |snaps| - 1);
    case Some(m) =>
      assert (m, k) in d.cs;
      Quiet(d, base, snaps, k, height - base, m - base - 1);
  }

  /** Without an indexed change in between, two snapshots agree at the key. */
  lemma {:induction false} Quiet<K(!new), V(!new)>(d: Domain<K, V>, base: nat, snaps: seq<map<K, V>>, k: K, i: nat,
                                   j: nat)
    requires Tracks(d, base, snaps) && i <= j < |snaps|
    requires forall h: nat :: base + i < h <= base + j ==> (k, h) !in d.hist
    ensures Lookup(snaps[i], k) == Lookup(snaps[j], k)
    decreases j
  {
    if i < j {
      Quiet(d, base, snaps, k, i, j - 1);
      assert (k, base + j) !in d.hist;
      assert (base + j, k) == ((k, base + j).1, (k, base + j).0);
      assert KeptOrRecorded(d, base, snaps, j, k);
    }
  }

  // ---- whole runs, reorgs included ----

  /** One step of the node: apply a block's writes on the tip, or unwind to a target height. */
  datatype Step<K, V> = Apply(writes: seq<Write<K, V>>) | Unwind(target: nat)

  /** The plain reference: a stack of snapshots. An unwind at or above the tip, or below the base, does nothing. */
  function SnapStep<K(!new), V>(base: nat, snaps: seq<map<K, V>>, s: Step<K, V>): (r: seq<map<K, V>>)
    requires snaps != []
    ensures r != []
  {
    match s
    case Apply(ws) => snaps + [Overwritten(snaps[|snaps| - 1], ws)]
    case Unwind(t) => if base <= t < base + |snaps| then snaps[..t - base + 1] else snaps
  }

  function Overwritten<K(!new), V>(m: map<K, V>, ws: seq<Write<K, V>>): (r: map<K, V>) {
    if ws == [] then m
    else Assign(Overwritten(m, ws[..|ws| - 1]), ws[|ws| - 1].key, ws[|ws| - 1].value)
  }

  /** The archive: a bucket, its changeset and its index, standing at a tip height. */
  datatype Archive<!K(==), V> = Archive(dom: Domain<K, V>, tip: nat)

  function ArchiveStep<K(!new), V>(base: nat, a: Archive<K, V>, s: Step<K, V>): (r: Archive<K, V>) {
    match s
    case Apply(ws) => Archive(PutAll(a.dom, a.tip + 1, ws), a.tip + 1)
    case Unwind(t) => if base <= t <= a.tip then Archive(Unwound(a.dom, a.tip, t), t) else a
  }

  function SnapRun<K(!new), V>(base: nat, genesis: map<K, V>, steps: seq<Step<K, V>>): (r: seq<map<K, V>>)
    ensures r != []
  {
    if steps == [] then [genesis] else SnapStep(base, SnapRun(base, genesis, steps[..|steps| - 1]), steps[|steps| - 1])
  }

  function ArchiveRun<K(!new), V>(base: nat, genesis: map<K, V>, steps: seq<Step<K, V>>): (r: Archive<K, V>) {
    if steps == [] then Archive(Domain(true, genesis, map[], {}), base)
    else ArchiveStep(base, ArchiveRun(base, genesis, steps[..|steps| - 1]), steps[|steps| - 1])
  }

  lemma {:induction false} PutAllState<K(!new), V>(d: Domain<K, V>, h: nat, ws: seq<Write<K, V>>)
    ensures PutAll(d, h, ws).state == Overwritten(d.state, ws)
  {
    if ws != [] {
      PutAllState(d, h, ws[..|ws| - 1]);
    }
  }

  /** In every run, reorgs included, the archive stands for the stack of snapshots. */
  lemma {:induction false} RunTracks<K(!new), V(!new)>(base: nat, genesis: map<K, V>, steps: seq<Step<K, V>>)
    ensures var snaps := SnapRun(base, genesis, steps);
            var a := ArchiveRun(base, genesis, steps);
            a.tip == base + |snaps| - 1 && Tracks(a.dom, base, snaps)
  {
    if steps != [] {
      var front, s := steps[..|steps| - 1], steps[|steps| - 1];
      RunTracks(base, genesis, front);
      var snaps, a := SnapRun(base, genesis, front), ArchiveRun(base, genesis, front);
      StepTracks(base, snaps, a, s);
    }
  }

  lemma StepTracks<K(!new), V(!new)>(base: nat, snaps: seq<map<K, V>>, a: Archive<K, V>, s: Step<K, V>)
    requires Tracks(a.dom, base, snaps) && a.tip == base + |snaps| - 1
    ensures var b := ArchiveStep(base, a, s);
            Tracks(b.dom, base, SnapStep(base, snaps, s)) && b.tip == base + |SnapStep(base, snaps, s)| - 1
  {
    match s
    case Apply(ws) =>
      ApplyTracks(a.dom, base, snaps, ws, a.tip + 1);
      PutAllState(a.dom, a.tip + 1, ws);
    case Unwind(t) =>
      if base <= t <= a.tip {
        UnwoundTracks(a.dom, base, snaps, a.tip, t);
      }
  }

  /** In every run, reorgs included, a read at any height up to the tip returns what held there. */
  lemma RunHistoricalRead<K(!new), V(!new)>(base: nat, genesis: map<K, V>, steps: seq<Step<K, V>>, k: K,
                            height: nat, first: Option<nat>)
    requires base <= height <= ArchiveRun(base, genesis, steps).tip
    requires IsFirstChange(ArchiveRun(base, genesis, steps).dom.hist, k, height, first)
    ensures height - base < |SnapRun(base, genesis, steps)|
    ensures ReadAt(ArchiveRun(base, genesis, steps).dom, k, first)
              == Lookup(SnapRun(base, genesis, steps)[height - base], k)
  {
    RunTracks(base, genesis, steps);
    HistoricalRead(ArchiveRun(base, genesis, steps).dom, base, SnapRun(base, genesis, steps), k, height, first);
  }
}
