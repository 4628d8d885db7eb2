/** The imperative form of an archived domain: the record and revert loops of ngstate/changeset.go. */
module ArchiveBucket {
  import opened Basics
  import opened Domains
  import opened KeyOrder

  class Bucket<!K(==, !new), V(==, !new)> {
    const indexed: bool
    var state: map<K, V>
    var cs: map<(nat, K), Option<V>>
    var hist: set<(K, nat)>

    ghost function View(): (d: Domain<K, V>)
      reads this
    {
      Domain(indexed, state, cs, hist)
    }

    ghost predicate Valid()
      reads this
    {
      (indexed || hist == {}) && forall x :: x in cs ==> x.0 < HEIGHTS
    }

    constructor (indexed: bool)
      ensures Valid() && View() == Domain(indexed, map[], map[], {})
    {
      this.indexed := indexed;
      state, cs, hist := map[], map[], {};
    }

    /** Roll back to saved contents. */
    method Load(d: Domain<K, V>)
      requires d.indexed == indexed && (indexed || d.hist == {}) && forall x :: x in d.cs ==> x.0 < HEIGHTS
      modifies this
      ensures Valid() && View() == d
    {
      state, cs, hist := d.state, d.cs, d.hist;
    }

    /** Capture the pre-image once per block, unless the recorder is nil. */
    method Record(rec: Option<nat>, k: K)
      requires Valid() && (rec.Some? ==> rec.value < HEIGHTS)
      modifies this`cs, this`hist
      ensures Valid()
      ensures View() == if rec.Some? then Domains.Record(old(View()), rec.value, k) else old(View())
    {
      if rec.None? {
        return;
      }
      var h := rec.value;
      if (h, k) in cs {
        return;
      }
      cs := cs[(h, k) := Lookup(state, k)];
      if indexed {
        hist := hist + {(k, h)};
      }
    }

    /** A write helper: record, then put or delete. */
    method Set(rec: Option<nat>, k: K, v: Option<V>)
      requires Valid() && (rec.Some? ==> rec.value < HEIGHTS)
      modifies this
      ensures Valid()
      ensures View() == if rec.Some? then Put(old(View()), rec.value, Write(k, v))
                        else old(View()).(state := Assign(old(state), k, v))
    {
      Record(rec, k);
      match v {
        case Some(x) => state := state[k := x];
        case None => state := state - {k};
      }
    }

    /** revertDomain's loop body: put or delete the pre-image, drop the index and changeset rows. */
    method RevertKey(h: nat, k: K) returns (value: Option<V>)
      requires Valid() && (h, k) in cs
      modifies this
      ensures Valid()
      ensures value == old(cs)[(h, k)] && View() == KeyReverted(old(View()), h, k)
    {
      value := cs[(h, k)];
      match value {
        case Some(v) => state := state[k := v];
        case None => state := state - {k};
      }
      if indexed {
        hist := hist - {(k, h)};
      }
      cs := cs - {(h, k)};
    }

    /** revertDomain's second loop, over the rows its scan of height h found: restore every pre-image and drop
        that height's rows. The restored writes are handed back for the state commitment. */
    method Revert(h: nat, rows: seq<K>) returns (restored: seq<Write<K, V>>)
      requires Valid()
      requires forall k :: k in rows <==> (h, k) in cs
      requires forall i, j :: 0 <= i < j < |rows| ==> rows[i] != rows[j]
      modifies this
      ensures Valid()
      ensures View() == Reverted(old(View()), h)
      ensures Restores(old(View()), h, restored)
    {
      restored := [];
      ghost var was, todo := View(), set k | k in rows;
      PartlyStart(was, h, todo);
      for i := 0 to |rows|
        invariant Valid()
        invariant forall k :: k in todo <==> k in rows[i..]
        invariant Partly(was, View(), h, todo)
        invariant Listed(was, h, todo, restored)
      {
        var k := rows[i];
        PartlyStep(was, View(), h, todo, k);
        var value := RevertKey(h, k);
        restored := restored + [Write(k, value)];
        todo := todo - {k};
      }
      assert todo == {};
      PartlyDone(was, View(), h);
    }
  }

  /** The byte keys of a changeset bucket. */
  function CsKeys<V>(cs: map<(nat, Digest), Option<V>>): (r: set<Bytes>) {
    set x | x in cs && x.0 < HEIGHTS :: CsKey(x.0, x.1)
  }

  /** revertDomain's first loop: seek the height's eight bytes and step while they match, keeping the address
      of every key of the right length. It finds exactly the addresses with a row at that height, once each. */
  method ScanHeight<V>(cs: map<(nat, Digest), Option<V>>, h: Height) returns (rows: seq<Digest>)
    requires forall x :: x in cs ==> x.0 < HEIGHTS
    ensures forall a: Digest :: a in rows <==> (h, a) in cs
    ensures forall i, j :: 0 <= i < j < |rows| ==> rows[i] != rows[j]
  {
    var found := ScanPrefix(CsKeys(cs), HeightLE(h));
    rows := [];
    for i := 0 to |found|
      invariant |rows| == i
      invariant forall j :: 0 <= j < i ==> found[j] == CsKey(h, rows[j])
      invariant forall j :: 0 <= j < i ==> (h, rows[j]) in cs
    {
      FoundRow(cs, h, found[i]);
      if |found[i]| == 8 + 32 {
        rows := rows + [found[i][8..]];
      }
    }
    forall a: Digest | (h, a) in cs ensures a in rows {
      CsKeyPrefix(h, h, a);
      assert CsKey(h, a) in found;
      var j :| 0 <= j < |found| && found[j] == CsKey(h, a);
      CsKeyPrefix(h, h, rows[j]);
    }
  }

  lemma FoundRow<V>(cs: map<(nat, Digest), Option<V>>, h: Height, k: Bytes)
    requires k in CsKeys(cs) && HeightLE(h) <= k
    ensures |k| == 8 + 32 && k == CsKey(h, k[8..]) && (h, k[8..]) in cs
  {
    var x :| x in cs && x.0 < HEIGHTS && k == CsKey(x.0, x.1);
    CsKeyPrefix(h, x.0, x.1);
  }

  /** One changeset row taken back. */
  function KeyReverted<K(!new), V>(d: Domain<K, V>, h: nat, k: K): (r: Domain<K, V>)
    requires (h, k) in d.cs
  {
    d.(state := Assign(d.state, k, d.cs[(h, k)]), cs := d.cs - {(h, k)}, hist := d.hist - {(k, h)})
  }

  /** The domain with every row of height h taken back except those still to do. */
  ghost predicate Partly<K(!new), V(!new)>(was: Domain<K, V>, d: Domain<K, V>, h: nat, todo: set<K>) {
    forall seal {:trigger Opened(UNDONE, seal)} :: Opened(UNDONE, seal) ==> PartlyReverted(was, d, h, todo)
  }

  ghost predicate PartlyReverted<K(!new), V(!new)>(was: Domain<K, V>, d: Domain<K, V>, h: nat, todo: set<K>) {
    && d.indexed == was.indexed
    && (forall x: (nat, K) :: Lookup(d.cs, x) == if x.0 == h && x.1 !in todo then None else Lookup(was.cs, x))
    && (forall k :: Lookup(d.state, k) == if k in todo then Lookup(was.state, k) else Restored(was, h, k))
    && (forall x: (K, nat) :: x in d.hist <==> x in was.hist && (x.1 != h || (h, x.0) !in was.cs || x.0 in todo))
  }

  lemma PartlyStart<K(!new), V(!new)>(was: Domain<K, V>, h: nat, todo: set<K>)
    requires forall k :: k in todo <==> (h, k) in was.cs
    ensures Partly(was, was, h, todo)
  {}

  lemma PartlyStep<K(!new), V(!new)>(was: Domain<K, V>, d: Domain<K, V>, h: nat, todo: set<K>, k: K)
    requires Partly(was, d, h, todo) && k in todo && (h, k) in was.cs
    ensures (h, k) in d.cs && d.cs[(h, k)] == was.cs[(h, k)]
    ensures Partly(was, KeyReverted(d, h, k), h, todo - {k})
  {
    assert Opened(UNDONE, true);
    assert Lookup(d.cs, (h, k)) == Lookup(was.cs, (h, k));
    var e := KeyReverted(d, h, k);
    forall x: (nat, K) ensures Lookup(e.cs, x) == if x.0 == h && x.1 !in todo - {k} then None else Lookup(was.cs, x) {
      assert Lookup(e.cs, x) == if x == (h, k) then None else Lookup(d.cs, x);
    }
  }

  lemma PartlyDone<K(!new), V(!new)>(was: Domain<K, V>, d: Domain<K, V>, h: nat)
    requires Partly(was, d, h, {})
    ensures d == Reverted(was, h)
  {
    assert Opened(UNDONE, true);
    SameDomain(d, Reverted(was, h));
  }

  ghost predicate Listed<K(!new), V(!new)>(was: Domain<K, V>, h: nat, todo: set<K>, ws: seq<Write<K, V>>) {
    && (forall w :: w in ws ==> (h, w.key) in was.cs && w.value == was.cs[(h, w.key)])
    && (forall k :: (h, k) in was.cs && k !in todo ==> Write(k, was.cs[(h, k)]) in ws)
  }

  /** The writes are exactly the pre-images of height h. */
  ghost predicate Restores<K(!new), V(!new)>(was: Domain<K, V>, h: nat, ws: seq<Write<K, V>>) {
    Listed(was, h, {}, ws)
  }

  lemma SameDomain<K(!new), V>(d: Domain<K, V>, e: Domain<K, V>)
    requires d.indexed == e.indexed
    requires forall k :: Lookup(d.state, k) == Lookup(e.state, k)
    requires forall x :: Lookup(d.cs, x) == Lookup(e.cs, x)
    requires forall x :: x in d.hist <==> x in e.hist
    ensures d == e
  {
    SameLookups(d.state, e.state);
    SameLookups(d.cs, e.cs);
    assert d.hist == e.hist;
  }
}
