/** The dependency ledger (ngstate/deps.go, state_handle.go): each contract counts the contracts that list it. */
module DepLedger {
  import opened Basics
  import opened VmJournal

  type Slots = map<Digest, Contract>

  /** The contracts that list x as a dependency. */
  function Listers(m: Slots, x: Digest): (r: set<Digest>) {
    set c | c in m && x in m[c].deps
  }

  ghost predicate Unique(s: seq<Digest>) {
    forall i, j :: 0 <= i < j < |s| ==> s[i] != s[j]
  }

  /** Every slot is live and lists live contracts other than itself, each once; every count is exact. */
  ghost predicate Exact(m: Slots) {
    && (forall a :: a in m ==> SlotOk(m, a))
    && (forall a :: a in m ==> m[a].refs == |Listers(m, a)|)
  }

  ghost predicate SlotOk(m: Slots, a: Digest)
    requires a in m
  {
    Live(m, a) && Unique(m[a].deps) && forall x :: x in m[a].deps ==> x != a && Live(m, x)
  }

  /** A contract run leaves the ledger exact. */
  lemma RunKeepsExact(m: Slots, n: Slots)
    requires Exact(m) && SameSlots(m, n)
    ensures Exact(n)
  {
    forall a | a in n ensures SlotOk(n, a) && n[a].refs == |Listers(n, a)| {
      assert SameSlot(m[a], n[a]) && SlotOk(m, a);
      forall x | x in n[a].deps ensures x != a && Live(n, x) {
        assert Live(m, x) && SameSlot(m[x], n[x]);
      }
      assert Listers(n, a) == Listers(m, a) by {
        forall c ensures c in Listers(n, a) <==> c in Listers(m, a) {
          assert c in m ==> SameSlot(m[c], n[c]);
        }
      }
    }
  }

  /** The counts of the named contracts go up by one. */
  function Pinned(m: Slots, deps: seq<Digest>): (r: Slots) {
    map a | a in m :: if a in deps then m[a].(refs := m[a].refs + 1) else m[a]
  }

  /** The counts of the named contracts go down by one, never below zero. */
  function Released(m: Slots, deps: seq<Digest>): (r: Slots) {
    map a | a in m :: if a in deps && m[a].refs > 0 then m[a].(refs := m[a].refs - 1) else m[a]
  }

  lemma PinnedStep(m: Slots, deps: seq<Digest>, i: nat)
    requires i < |deps| && Unique(deps) && deps[i] in m
    ensures var p := Pinned(m, deps[..i]);
            p[deps[i] := p[deps[i]].(refs := p[deps[i]].refs + 1)] == Pinned(m, deps[..i + 1])
  {
    assert deps[i] !in deps[..i];
    assert deps[..i + 1] == deps[..i] + [deps[i]];
  }

  lemma ReleasedStep(m: Slots, deps: seq<Digest>, i: nat)
    requires i < |deps| && Unique(deps) && deps[i] in m && m[deps[i]].refs > 0
    ensures var p := Released(m, deps[..i]);
            p[deps[i]].refs > 0 && p[deps[i] := p[deps[i]].(refs := p[deps[i]].refs - 1)] == Released(m, deps[..i + 1])
  {
    assert deps[i] !in deps[..i];
    assert deps[..i + 1] == deps[..i] + [deps[i]];
  }

  /** What a listed contract's count is worth: at least the lister. */
  lemma ListedIsCounted(m: Slots, c: Digest, x: Digest)
    requires Exact(m) && c in m && x in m[c].deps
    ensures x in m && m[x].refs > 0
  {
    assert SlotOk(m, c);
    assert c in Listers(m, x);
  }

  /** The ledger after a deploy or upgrade of a: old references released, new ones pinned, the slot replaced. */
  function Replaced(m: Slots, a: Digest, olds: seq<Digest>, c: Contract): (r: Slots) {
    Pinned(Released(m, olds), c.deps)[a := c]
  }

  /** Every slot other than a has the same code and dependencies in both. */
  ghost predicate Carried(m: Slots, n: Slots, a: Digest) {
    forall y :: y in m && y != a ==> y in n && SameCode(m[y], n[y])
  }

  ghost predicate SameCode(x: Contract, y: Contract) {
    x.active == y.active && x.source == y.source && x.deps == y.deps
  }

  lemma ListersAfter(m: Slots, n: Slots, a: Digest, x: Digest)
    requires Carried(m, n, a) && n.Keys == m.Keys + {a}
    ensures Listers(n, x) == Listers(m, x) - {a} + if x in n[a].deps then {a} else {}
  {
    forall c ensures c in Listers(n, x) <==> c in Listers(m, x) - {a} + if x in n[a].deps then {a} else {} {
      assert c in m && c != a ==> SameCode(m[c], n[c]);
    }
  }

  lemma ListersWithout(m: Slots, n: Slots, a: Digest, x: Digest)
    requires Carried(m, n, a) && n.Keys == m.Keys - {a}
    ensures Listers(n, x) == Listers(m, x) - {a}
  {
    forall c ensures c in Listers(n, x) <==> c in Listers(m, x) - {a} {
      assert c in m && c != a ==> SameCode(m[c], n[c]);
    }
  }

  lemma OtherSlotOk(m: Slots, n: Slots, a: Digest, y: Digest)
    requires Carried(m, n, a) && y in m && y != a && SlotOk(m, y) && (a in m[y].deps ==> Live(n, a))
    ensures SlotOk(n, y)
  {
    assert SameCode(m[y], n[y]);
    forall x | x in n[y].deps ensures x != y && Live(n, x) {
      assert x != a ==> SameCode(m[x], n[x]);
    }
  }

  lemma CarriedReplaced(m: Slots, a: Digest, olds: seq<Digest>, c: Contract)
    ensures Carried(m, Replaced(m, a, olds, c), a)
    ensures Replaced(m, a, olds, c).Keys == m.Keys + {a}
    ensures forall y :: y in m && y != a ==>
              Replaced(m, a, olds, c)[y].refs == Pinned(Released(m, olds), c.deps)[y].refs
  {}

  /** Deploy and upgrade keep the ledger exact, whether or not old and new dependencies overlap. */
  lemma ReplaceExact(m: Slots, a: Digest, c: Contract, olds: seq<Digest>)
    requires Exact(m)
    requires olds == if a in m then m[a].deps else []
    requires c.active && c.source != [] && Unique(c.deps) && forall x :: x in c.deps ==> x != a && Live(m, x)
    requires c.refs == if a in m then m[a].refs else 0
    ensures Exact(Replaced(m, a, olds, c))
  {
    var n := Replaced(m, a, olds, c);
    CarriedReplaced(m, a, olds, c);
    forall y | y in n ensures SlotOk(n, y) && n[y].refs == |Listers(n, y)| {
      ReplacedAt(m, n, a, c, olds, y);
    }
  }

  lemma ReplacedAt(m: Slots, n: Slots, a: Digest, c: Contract, olds: seq<Digest>, y: Digest)
    requires Exact(m) && olds == if a in m then m[a].deps else []
    requires c.active && c.source != [] && Unique(c.deps) && forall x :: x in c.deps ==> x != a && Live(m, x)
    requires c.refs == if a in m then m[a].refs else 0
    requires Carried(m, n, a) && n.Keys == m.Keys + {a} && n[a] == c && y in n
    requires y != a ==> n[y].refs == Pinned(Released(m, olds), c.deps)[y].refs
    ensures SlotOk(n, y) && n[y].refs == |Listers(n, y)|
  {
    ListersAfter(m, n, a, y);
    if y == a {
      OwnCount(m, a, c);
      forall x | x in c.deps ensures Live(n, x) {
        assert SameCode(m[x], n[x]);
      }
    } else {
      assert SlotOk(m, y);
      OtherSlotOk(m, n, a, y);
      OtherCount(m, a, c, olds, y);
    }
  }

  lemma OwnCount(m: Slots, a: Digest, c: Contract)
    requires Exact(m) && forall x :: x in c.deps ==> x != a
    requires c.refs == if a in m then m[a].refs else 0
    ensures c.refs == |Listers(m, a) - {a} + if a in c.deps then {a} else {}|
  {
    if a in m {
      assert SlotOk(m, a);
      assert a !in Listers(m, a);
      assert Listers(m, a) - {a} + {} == Listers(m, a);
    } else {
      forall y | y in m ensures a !in m[y].deps {
        assert SlotOk(m, y);
      }
      assert Listers(m, a) == {};
    }
  }

  lemma OtherCount(m: Slots, a: Digest, c: Contract, olds: seq<Digest>, y: Digest)
    requires Exact(m) && y in m && y != a && olds == if a in m then m[a].deps else []
    requires y in c.deps ==> Live(m, y)
    ensures Pinned(Released(m, olds), c.deps)[y].refs == |Listers(m, y) - {a} + if y in c.deps then {a} else {}|
  {
    var l := Listers(m, y);
    assert a in l <==> y in olds;
    if y in olds {
      ListedIsCounted(m, a, y);
      assert |l - {a}| == |l| - 1;
    } else {
      assert l - {a} == l;
    }
    if y in c.deps {
      assert |l - {a} + {a}| == |l - {a}| + 1;
    }
  }

  /** Destroying an unreferenced contract keeps the ledger exact. */
  lemma RemoveExact(m: Slots, a: Digest)
    requires Exact(m) && a in m && m[a].refs == 0
    ensures Exact(Released(m, m[a].deps) - {a})
  {
    var n := Released(m, m[a].deps) - {a};
    assert Carried(m, n, a) && n.Keys == m.Keys - {a};
    forall y | y in n ensures SlotOk(n, y) && n[y].refs == |Listers(n, y)| {
      RemovedAt(m, n, a, y);
    }
  }

  lemma RemovedAt(m: Slots, n: Slots, a: Digest, y: Digest)
    requires Exact(m) && a in m && m[a].refs == 0 && Carried(m, n, a) && n.Keys == m.Keys - {a} && y in n
    requires n[y].refs == Released(m, m[a].deps)[y].refs
    ensures SlotOk(n, y) && n[y].refs == |Listers(n, y)|
  {
    assert Listers(m, a) == {};
    assert a !in m[y].deps by {
      assert y !in Listers(m, a);
    }
    assert SlotOk(m, y);
    OtherSlotOk(m, n, a, y);
    ListersWithout(m, n, a, y);
    var l := Listers(m, y);
    assert a in l <==> y in m[a].deps;
    if a in l {
      assert |l - {a}| == |l| - 1;
    } else {
      assert l - {a} == l;
    }
  }

  // ---- the invariant, carried unopened ----

  ghost predicate InOrder(m: Slots) {
    forall seal {:trigger Opened(DEPS, seal)} :: Opened(DEPS, seal) ==> Exact(m)
  }

  lemma EmptyInOrder()
    ensures InOrder(map[])
  {}

  lemma RunInOrder(m: Slots, n: Slots)
    requires InOrder(m) && SameSlots(m, n)
    ensures InOrder(n)
  {
    assert Opened(DEPS, true);
    RunKeepsExact(m, n);
  }

  lemma ReplaceInOrder(m: Slots, a: Digest, c: Contract, olds: seq<Digest>)
    requires InOrder(m) && olds == if a in m then m[a].deps else []
    requires c.active && c.source != [] && Unique(c.deps) && forall x :: x in c.deps ==> x != a && Live(m, x)
    requires c.refs == if a in m then m[a].refs else 0
    ensures InOrder(Replaced(m, a, olds, c))
  {
    assert Opened(DEPS, true);
    ReplaceExact(m, a, c, olds);
  }

  lemma RemoveInOrder(m: Slots, a: Digest)
    requires InOrder(m) && a in m && m[a].refs == 0
    ensures InOrder(Released(m, m[a].deps) - {a})
  {
    assert Opened(DEPS, true);
    RemoveExact(m, a);
  }

  lemma NobodyLists(m: Slots, a: Digest)
    requires InOrder(m) && a in m && m[a].refs == 0
    ensures Listers(m, a) == {}
  {
    assert Opened(DEPS, true);
  }

  lemma DepsCounted(m: Slots, a: Digest)
    requires InOrder(m) && a in m
    ensures Unique(m[a].deps) && forall x :: x in m[a].deps ==> x in m && m[x].refs > 0
  {
    assert Opened(DEPS, true);
    assert SlotOk(m, a);
    forall x | x in m[a].deps ensures x in m && m[x].refs > 0 {
      ListedIsCounted(m, a, x);
    }
  }

  lemma NotLiveIsAbsent(m: Slots, a: Digest)
    requires InOrder(m) && !Live(m, a)
    ensures a !in m
  {
    assert Opened(DEPS, true);
    assert forall x :: x in m ==> SlotOk(m, x);
  }
}
