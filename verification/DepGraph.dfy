/** The dependency graph of the deployed contracts (ngstate/deps.go, state_handle.go): when it stays acyclic. */
module DepGraph {
  import opened Basics
  import opened VmJournal
  import opened DepLedger
  import opened Deposits

  ghost predicate Edge(m: Slots, x: Digest, y: Digest) {
    x in m && y in m[x].deps
  }

  /** Each step goes from a contract to one it lists. */
  ghost predicate Walk(m: Slots, p: seq<Digest>) {
    p != [] && forall i :: 0 <= i < |p| - 1 ==> EdgeAt(m, p, i)
  }

  ghost predicate EdgeAt(m: Slots, p: seq<Digest>, i: nat)
    requires i + 1 < |p|
  {
    Edge(m, p[i], p[i + 1])
  }

  ghost predicate Cycle(m: Slots, p: seq<Digest>) {
    Walk(m, p) && |p| > 1 && p[0] == p[|p| - 1]
  }

  ghost predicate Acyclic(m: Slots) {
    forall p :: !Cycle(m, p)
  }

  ghost predicate Leads(m: Slots, p: seq<Digest>, x: Digest, y: Digest) {
    Walk(m, p) && p[0] == x && p[|p| - 1] == y
  }

  /** y is x, or x depends on it directly or through others. */
  ghost predicate Reaches(m: Slots, x: Digest, y: Digest) {
    exists p :: Leads(m, p, x, y)
  }

  /** Everything but the slot of a is carried over from m to n. */
  ghost predicate Changed(m: Slots, n: Slots, a: Digest) {
    Carried(m, n, a) && n.Keys == m.Keys + {a}
  }

  /** Away from a, the edges before and after are the same. */
  lemma EdgeCarried(m: Slots, n: Slots, a: Digest, x: Digest, y: Digest)
    requires Changed(m, n, a) && x != a
    ensures Edge(m, x, y) <==> Edge(n, x, y)
    ensures Edge(m, x, y) <==> Edge(m - {a}, x, y)
  {
    assert x in m ==> SameCode(m[x], n[x]);
  }

  /** A walk that never leaves from a is one without a's edges, before or after. */
  lemma WalkCarried(m: Slots, n: Slots, a: Digest, p: seq<Digest>)
    requires Changed(m, n, a) && forall i :: 0 <= i < |p| - 1 ==> p[i] != a
    ensures Walk(n, p) <==> Walk(m - {a}, p)
    ensures Walk(n, p) ==> Walk(m, p)
  {
    forall i | 0 <= i < |p| - 1
      ensures (EdgeAt(n, p, i) <==> EdgeAt(m - {a}, p, i)) && (EdgeAt(n, p, i) <==> EdgeAt(m, p, i))
    {
      EdgeCarried(m, n, a, p[i], p[i + 1]);
    }
  }

  lemma WithoutLeaves(m: Slots, a: Digest, p: seq<Digest>)
    requires Walk(m - {a}, p)
    ensures forall i :: 0 <= i < |p| - 1 ==> p[i] != a
  {
    forall i | 0 <= i < |p| - 1 ensures p[i] != a {
      assert EdgeAt(m - {a}, p, i);
    }
  }

  /** A new dependency that reaches back closes a cycle. */
  lemma Closes(m: Slots, n: Slots, a: Digest, x: Digest, p: seq<Digest>)
    requires Changed(m, n, a) && x in n[a].deps && Leads(m - {a}, p, x, a)
    ensures Cycle(n, [a] + p)
  {
    WithoutLeaves(m, a, p);
    WalkCarried(m, n, a, p);
    var q := [a] + p;
    forall i | 0 <= i < |q| - 1 ensures EdgeAt(n, q, i) {
      assert i > 0 ==> EdgeAt(n, p, i - 1);
    }
  }

  /** A cycle through p[i] read from there. */
  lemma Rotate(m: Slots, p: seq<Digest>, i: nat)
    requires Cycle(m, p) && i < |p| - 1
    ensures Cycle(m, p[i..] + p[1..i + 1]) && (p[i..] + p[1..i + 1])[0] == p[i]
  {
    var q, k := p[i..] + p[1..i + 1], |p| - i;
    forall j | 0 <= j < |q| - 1 ensures EdgeAt(m, q, j) {
      if j < k - 1 {
        assert EdgeAt(m, p, i + j);
      } else {
        assert q[j] == p[j - (k - 1)] && q[j + 1] == p[j - (k - 1) + 1];
        assert EdgeAt(m, p, j - (k - 1));
      }
    }
  }

  /** The first return to a. */
  lemma {:induction false} FirstReturn(q: seq<Digest>, a: Digest, k: nat) returns (r: nat)
    requires 0 < k < |q| && q[k] == a
    ensures 0 < r <= k && q[r] == a && forall j :: 0 < j < r ==> q[j] != a
  {
    r := k;
    if exists j :: 0 < j < k && q[j] == a {
      var j :| 0 < j < k && q[j] == a;
      r := FirstReturn(q, a, j);
    }
  }

  /** A cycle from a to itself comes back through one of a's new dependencies. */
  lemma ComesBack(m: Slots, n: Slots, a: Digest, q: seq<Digest>)
    requires Changed(m, n, a) && Cycle(n, q) && q[0] == a
    ensures exists x :: x in n[a].deps && Reaches(m - {a}, x, a)
  {
    var r := FirstReturn(q, a, |q| - 1);
    var p := q[1..r + 1];
    forall i | 0 <= i < |p| - 1 ensures EdgeAt(n, p, i) {
      assert EdgeAt(n, q, i + 1);
    }
    WalkCarried(m, n, a, p);
    assert EdgeAt(n, q, 0);
    assert Leads(m - {a}, p, q[1], a);
  }

  /** Changing the slot of a keeps an acyclic graph acyclic if and only if none of a's new dependencies reaches
      a without using a's own edges. */
  lemma AcyclicIff(m: Slots, n: Slots, a: Digest)
    requires Acyclic(m) && Changed(m, n, a)
    ensures Acyclic(n) <==> forall x :: x in n[a].deps ==> !Reaches(m - {a}, x, a)
  {
    if x :| x in n[a].deps && Reaches(m - {a}, x, a) {
      var p :| Leads(m - {a}, p, x, a);
      Closes(m, n, a, x, p);
    }
    if p :| Cycle(n, p) {
      if i :| 0 <= i < |p| - 1 && p[i] == a {
        Rotate(n, p, i);
        ComesBack(m, n, a, p[i..] + p[1..i + 1]);
      } else {
        WalkCarried(m, n, a, p);
        assert Cycle(m, p);
      }
    }
  }

  /** Deploy and upgrade: the ledger replaces a's slot by c. */
  lemma ReplaceAcyclicIff(m: Slots, a: Digest, olds: seq<Digest>, c: Contract)
    requires Acyclic(m)
    ensures Acyclic(Replaced(m, a, olds, c)) <==> forall x :: x in c.deps ==> !Reaches(m - {a}, x, a)
  {
    CarriedReplaced(m, a, olds, c);
    AcyclicIff(m, Replaced(m, a, olds, c), a);
  }

  /** A contract reached from elsewhere is listed by somebody. */
  lemma ReachedIsListed(m: Slots, a: Digest, x: Digest)
    requires x != a && Reaches(m - {a}, x, a)
    ensures Listers(m, a) != {}
  {
    var p :| Leads(m - {a}, p, x, a);
    assert EdgeAt(m - {a}, p, |p| - 2);
    assert p[|p| - 2] in Listers(m, a);
  }

  /** So a deploy onto an empty slot always keeps it acyclic, and so does upgrading a contract nobody lists. */
  lemma DeployAcyclic(m: Slots, a: Digest, olds: seq<Digest>, c: Contract)
    requires Acyclic(m) && Exact(m) && (a in m ==> m[a].refs == 0) && a !in c.deps
    ensures Acyclic(Replaced(m, a, olds, c))
  {
    assert Listers(m, a) == {} by {
      forall y | y in m && a in m[y].deps ensures a in m {
        assert SlotOk(m, y);
      }
    }
    forall x | x in c.deps ensures !Reaches(m - {a}, x, a) {
      if Reaches(m - {a}, x, a) {
        ReachedIsListed(m, a, x);
      }
    }
    ReplaceAcyclicIff(m, a, olds, c);
  }

  /** Destroying a contract, or running any, adds no edge. */
  lemma FewerEdges(m: Slots, n: Slots)
    requires Acyclic(m) && forall x :: x in n ==> x in m && n[x].deps == m[x].deps
    ensures Acyclic(n)
  {
    if p :| Cycle(n, p) {
      forall i | 0 <= i < |p| - 1 ensures EdgeAt(m, p, i) {
        assert EdgeAt(n, p, i);
      }
      assert Cycle(m, p);
    }
  }

  lemma RemoveAcyclic(m: Slots, a: Digest, olds: seq<Digest>)
    requires Acyclic(m)
    ensures Acyclic(Released(m, olds) - {a})
  {
    FewerEdges(m, Released(m, olds) - {a});
  }

  lemma RunAcyclic(m: Slots, n: Slots)
    requires Acyclic(m) && SameSlots(m, n)
    ensures Acyclic(n)
  {
    forall x | x in n ensures x in m && n[x].deps == m[x].deps {
      assert SameSlot(m[x], n[x]);
    }
    FewerEdges(m, n);
  }

  lemma SameReach(m: Slots, n: Slots, a: Digest, x: Digest, y: Digest)
    requires SameSlots(m, n) && Reaches(m - {a}, x, y)
    ensures Reaches(n - {a}, x, y)
  {
    var p :| Leads(m - {a}, p, x, y);
    forall i | 0 <= i < |p| - 1 ensures EdgeAt(n - {a}, p, i) {
      assert EdgeAt(m - {a}, p, i);
      assert SameSlot(m[p[i]], n[p[i]]);
    }
    assert Leads(n - {a}, p, x, y);
  }

  /** A whole deploy or upgrade, hook included, on a book whose graph is acyclic: it stays so if and only if no new
      dependency reached the deployer beforehand without its own edges. */
  lemma SwapAcyclicIff(b: Book, a: Digest, hook: seq<Op>, source: Bytes, deps: seq<Digest>, rent: bool, d: Book)
    requires Acyclic(b.contracts) && Escrow() !in b.contracts && Swapped(b, a, hook, source, deps, rent) == Some(d)
    ensures Acyclic(d.contracts) <==> forall x :: x in deps ==> !Reaches(b.contracts - {a}, x, a)
  {
    var slot := Loaded(b, a);
    var c := slot.(source := source, active := true, deps := deps);
    var h := if Live(b.contracts, a) then Hooked(b, a, hook, rent).value else b;
    if Live(b.contracts, a) {
      HookKeeps(b, a, hook, rent, h);
    }
    RunAcyclic(b.contracts, h.contracts);
    ReplaceAcyclicIff(h.contracts, a, slot.deps, c);
    SlotsBack(b.contracts, h.contracts);
    forall x | x in deps ensures Reaches(b.contracts - {a}, x, a) <==> Reaches(h.contracts - {a}, x, a) {
      if Reaches(b.contracts - {a}, x, a) {
        SameReach(b.contracts, h.contracts, a, x, a);
      }
      if Reaches(h.contracts - {a}, x, a) {
        SameReach(h.contracts, b.contracts, a, x, a);
      }
    }
  }

  lemma SlotsBack(m: Slots, n: Slots)
    requires SameSlots(m, n)
    ensures SameSlots(n, m)
  {
    forall x | x in n ensures SameSlot(n[x], m[x]) {
      assert SameSlot(m[x], n[x]);
    }
  }

  lemma EndsApart(m: Slots, a: Digest, b: Digest, p: seq<Digest>)
    requires Walk(m, p) && |p| > 1 && forall x, y :: Edge(m, x, y) ==> x == b && y == a
    ensures p[0] == b && p[|p| - 1] == a
  {
    assert EdgeAt(m, p, 0) && EdgeAt(m, p, |p| - 2);
  }

  /** Two contracts: a with no dependencies, b listing a. */
  function Pair(a: Digest, b: Digest, source: Bytes): Slots {
    map[a := Contract(true, source, [], 1, 0, map[]), b := Contract(true, source, [a], 0, 0, map[])]
  }

  lemma PairExact(a: Digest, b: Digest, source: Bytes)
    requires a != b && source != []
    ensures Exact(Pair(a, b, source))
  {
    var m := Pair(a, b, source);
    assert Listers(m, a) == {b} && Listers(m, b) == {};
    assert SlotOk(m, a) && SlotOk(m, b);
  }

  lemma PairAcyclic(a: Digest, b: Digest, source: Bytes)
    requires a != b
    ensures Acyclic(Pair(a, b, source))
  {
    var m := Pair(a, b, source);
    forall p ensures !Cycle(m, p) {
      if Walk(m, p) && |p| > 1 {
        EndsApart(m, a, b, p);
      }
    }
  }

  /** The failing family is real: b lists a, then a is upgraded to list b, with a hook that does nothing. The upgrade
      meets every rule of the ledger and leaves its counts exact, and each of the two then depends on the other. */
  lemma UpgradeCloses(a: Digest, b: Digest, source: Bytes, rent: bool)
    requires a != b && source != []
    ensures var book := Book(map[], Pair(a, b, source));
            var d := Swapped(book, a, [], source, [b], rent);
            && Exact(book.contracts) && Acyclic(book.contracts) && Live(book.contracts, b)
            && d.Some? && Exact(d.value.contracts) && Cycle(d.value.contracts, [a, b, a])
  {
    var m, c := Pair(a, b, source), Contract(true, source, [b], 1, 0, map[]);
    var book := Book(map[], m);
    PairExact(a, b, source);
    PairAcyclic(a, b, source);
    ReplaceExact(m, a, c, []);
    CarriedReplaced(m, a, [], c);
    Mutual(m, Replaced(m, a, [], c), a, b);
    assert Hooked(book, a, [], rent) == Some(book);
    assert Loaded(book, a).(source := source, active := true, deps := [b]) == c;
  }

  lemma Mutual(m: Slots, n: Slots, a: Digest, b: Digest)
    requires a != b && Carried(m, n, a) && b in m && m[b].deps == [a] && a in n && n[a].deps == [b]
    ensures Cycle(n, [a, b, a])
  {
    assert SameCode(m[b], n[b]);
    assert EdgeAt(n, [a, b, a], 0) && EdgeAt(n, [a, b, a], 1);
  }
}
