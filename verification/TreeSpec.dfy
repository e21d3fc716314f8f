/** Trees of modules by their ids (service/module.go); the service at the root has id 0. */
module TreeSpec {

  const ROOT := 0

  /** `depth` only helps to see that parents come to an end at the root. */
  datatype Tree = Tree(kids: map<nat, set<nat>>, parent: map<nat, nat>, depth: map<nat, nat>)

  ghost predicate TreeOk(v: Tree) {
    && ROOT in v.kids && v.kids.Keys == v.depth.Keys && v.parent.Keys == v.kids.Keys - {ROOT}
    && (forall i, k :: i in v.kids && k in v.kids[i] ==> Kid(v, i, k))
    && (forall k :: k in v.parent ==> v.parent[k] in v.kids && k in v.kids[v.parent[k]])
  }

  ghost predicate Kid(v: Tree, i: nat, k: nat)
    requires i in v.kids && v.kids.Keys == v.depth.Keys
  {
    k in v.kids && k in v.parent && v.parent[k] == i && v.depth[k] == v.depth[i] + 1
  }

  /** `o` is `x` or below it. */
  ghost predicate Under(v: Tree, o: nat, x: nat)
    requires TreeOk(v) && o in v.kids
    decreases v.depth[o]
  {
    o == x || (o != ROOT && ParentDepth(v, o) && Under(v, v.parent[o], x))
  }

  /** Always true; it tells how the parent's depth relates. */
  ghost predicate ParentDepth(v: Tree, o: nat)
    requires TreeOk(v) && o in v.kids && o != ROOT
    ensures o in v.parent && v.parent[o] in v.kids && v.depth[o] == v.depth[v.parent[o]] + 1
    ensures ParentDepth(v, o)
  {
    assert o in v.parent;
    assert Kid(v, v.parent[o], o);
    true
  }

  /** The subtree of `x`. */
  ghost function Below(v: Tree, x: nat): (r: set<nat>)
    requires TreeOk(v)
  {
    set o | o in v.kids && Under(v, o, x)
  }

  /** The subtrees of several modules together. */
  ghost function BelowAll(v: Tree, xs: set<nat>): (r: set<nat>)
    requires TreeOk(v)
  {
    set o, x | x in xs && o in Below(v, x) :: o
  }

  // Part 1: How subtrees are made up.

  lemma {:induction false} UnderDepth(v: Tree, o: nat, x: nat)
    requires TreeOk(v) && o in v.kids && x in v.kids && Under(v, o, x)
    ensures v.depth[x] <= v.depth[o] && (v.depth[x] == v.depth[o] ==> o == x)
    decreases v.depth[o]
  {
    if o != x {
      assert ParentDepth(v, o);
      UnderDepth(v, v.parent[o], x);
    }
  }

  lemma {:induction false} UnderTransitive(v: Tree, o: nat, y: nat, x: nat)
    requires TreeOk(v) && o in v.kids && y in v.kids && Under(v, o, y) && Under(v, y, x)
    ensures Under(v, o, x)
    decreases v.depth[o]
  {
    if o != y {
      assert ParentDepth(v, o);
      UnderTransitive(v, v.parent[o], y, x);
    }
  }

  /** Of two modules above the same one, one is above the other. */
  lemma {:induction false} UnderLinear(v: Tree, o: nat, x: nat, y: nat)
    requires TreeOk(v) && o in v.kids && x in v.kids && y in v.kids && Under(v, o, x) && Under(v, o, y)
    ensures Under(v, x, y) || Under(v, y, x)
    decreases v.depth[o]
  {
    if o != x && o != y {
      assert ParentDepth(v, o);
      UnderLinear(v, v.parent[o], x, y);
    }
  }

  /** What is below a module, but not the module, is below one of its kids. */
  lemma {:induction false} UnderKid(v: Tree, o: nat, x: nat) returns (k: nat)
    requires TreeOk(v) && o in v.kids && x in v.kids && Under(v, o, x) && o != x
    ensures k in v.kids[x] && k in v.kids && Under(v, o, k)
    decreases v.depth[o]
  {
    assert ParentDepth(v, o);
    if v.parent[o] == x {
      k := o;
    } else {
      k := UnderKid(v, v.parent[o], x);
    }
  }

  lemma {:induction false} AllUnderRoot(v: Tree, o: nat)
    requires TreeOk(v) && o in v.kids
    ensures Under(v, o, ROOT)
    decreases v.depth[o]
  {
    if o != ROOT {
      assert ParentDepth(v, o);
      AllUnderRoot(v, v.parent[o]);
    }
  }

  lemma KidUnder(v: Tree, x: nat, k: nat)
    requires TreeOk(v) && x in v.kids && k in v.kids[x]
    ensures k in v.kids && k != ROOT && Under(v, k, x) && !Under(v, x, k)
  {
    assert Kid(v, x, k);
    assert ParentDepth(v, k);
    assert Under(v, x, x);
    if Under(v, x, k) { UnderDepth(v, x, k); }
  }

  /** A subtree is its top and the subtrees of its kids, and these are disjoint. */
  lemma BelowSplits(v: Tree, x: nat)
    requires TreeOk(v) && x in v.kids
    ensures Below(v, x) == {x} + BelowAll(v, v.kids[x]) && x !in BelowAll(v, v.kids[x])
  {
    forall o ensures o in Below(v, x) <==> o in {x} + BelowAll(v, v.kids[x]) {
      if o in Below(v, x) && o != x {
        var k := UnderKid(v, o, x);
        assert o in Below(v, k);
      }
      if o in BelowAll(v, v.kids[x]) {
        var k :| k in v.kids[x] && o in Below(v, k);
        KidUnder(v, x, k);
        UnderTransitive(v, o, k, x);
      }
    }
    forall k | k in v.kids[x] ensures x !in Below(v, k) { KidUnder(v, x, k); }
  }

  lemma KidsDisjoint(v: Tree, x: nat, ks: set<nat>, k: nat)
    requires TreeOk(v) && x in v.kids && ks <= v.kids[x] && k in v.kids[x] && k !in ks
    ensures Below(v, k) !! BelowAll(v, ks)
    ensures BelowAll(v, ks + {k}) == BelowAll(v, ks) + Below(v, k)
    ensures Below(v, k) < Below(v, x)
  {
    forall o | o in Below(v, k) ensures o !in BelowAll(v, ks) && o in Below(v, x) {
      KidUnder(v, x, k);
      UnderTransitive(v, o, k, x);
      forall j | j in ks ensures o !in Below(v, j) {
        KidUnder(v, x, j);
        if Under(v, o, j) { SiblingsApart(v, x, o, j, k); }
      }
    }
    KidUnder(v, x, k);
    assert Under(v, x, x) && x in Below(v, x) && x !in Below(v, k);
  }

  lemma RootNotBelow(v: Tree, x: nat)
    requires TreeOk(v) && x != ROOT
    ensures ROOT !in Below(v, x)
  {
    assert !Under(v, ROOT, x);
  }

  lemma SelfBelow(v: Tree, x: nat)
    requires TreeOk(v) && x in v.kids
    ensures x in Below(v, x)
  {
    assert Under(v, x, x);
  }

  lemma NothingBelow(v: Tree)
    requires TreeOk(v)
    ensures BelowAll(v, {}) == {}
  {
  }

  /** Where a loop over the kids of `x` stands, with `rest` still to come, before and after taking `k`. */
  lemma OneKidMore(v: Tree, x: nat, rest: set<nat>, k: nat)
    requires TreeOk(v) && x in v.kids && x != ROOT && rest <= v.kids[x] && k in rest
    ensures k in v.kids && k != ROOT && Below(v, k) < Below(v, x) && x !in Below(v, k)
    ensures BelowAll(v, v.kids[x] - (rest - {k})) == BelowAll(v, v.kids[x] - rest) + Below(v, k)
    ensures BelowAll(v, rest) == BelowAll(v, rest - {k}) + Below(v, k)
    ensures Below(v, k) !! BelowAll(v, v.kids[x] - rest) && Below(v, k) !! BelowAll(v, rest - {k})
    ensures BelowAll(v, v.kids[x] - rest) <= BelowAll(v, v.kids[x])
    ensures BelowAll(v, rest - {k}) <= BelowAll(v, v.kids[x]) && k in Below(v, k)
    ensures Below(v, k) <= BelowAll(v, v.kids[x])
  {
    BelowSplits(v, x);
    KidUnder(v, x, k);
    KidsDisjoint(v, x, v.kids[x] - rest, k);
    KidsDisjoint(v, x, rest - {k}, k);
    assert Under(v, k, k);
    assert v.kids[x] - (rest - {k}) == v.kids[x] - rest + {k};
    assert rest - {k} + {k} == rest;
  }

  /** No kid of a module below other kids of `x` is below `k`. */
  lemma KidsTogether(v: Tree, x: nat, rest: set<nat>, k: nat, o: nat)
    requires TreeOk(v) && x in v.kids && rest <= v.kids[x] && k in rest
    ensures o in BelowAll(v, rest - {k}) && o in v.kids ==> v.kids[o] !! Below(v, k)
    ensures k in v.parent && v.parent[k] == x
  {
    assert Kid(v, x, k);
    if o in BelowAll(v, rest - {k}) && o in v.kids {
      var j :| j in rest - {k} && o in Below(v, j);
      assert Kid(v, x, j);
      forall c | c in v.kids[o] ensures c !in Below(v, k) {
        KidUnder(v, o, c);
        UnderTransitive(v, c, o, j);
        if Under(v, c, k) { SiblingsApart(v, x, c, j, k); }
      }
    }
  }

  lemma SiblingsApart(v: Tree, x: nat, o: nat, j: nat, k: nat)
    requires TreeOk(v) && x in v.kids && j in v.kids[x] && k in v.kids[x] && j in v.kids && k in v.kids
    requires o in v.kids && Under(v, o, j) && Under(v, o, k)
    ensures j == k
  {
    UnderLinear(v, o, j, k);
    assert Kid(v, x, j) && Kid(v, x, k);
    if Under(v, j, k) { UnderDepth(v, j, k); } else { UnderDepth(v, k, j); }
  }

  // Part 2: What adding and releasing do.

  /** A new module `c` without kids under `p`. */
  function Grown(v: Tree, p: nat, c: nat): (r: Tree)
    requires p in v.kids && p in v.depth
  {
    Tree(v.kids[p := v.kids[p] + {c}][c := {}], v.parent[c := p], v.depth[c := v.depth[p] + 1])
  }

  /** The subtree of `x` is gone, and so is `x` among the kids of its parent. */
  ghost function Pruned(v: Tree, x: nat): (r: Tree)
    requires TreeOk(v)
  {
    var gone := Below(v, x);
    Tree(map i | i in v.kids && i !in gone :: v.kids[i] - {x}, v.parent - gone, v.depth - gone)
  }

  lemma GrownOk(v: Tree, p: nat, c: nat)
    requires TreeOk(v) && p in v.kids && c !in v.kids
    ensures TreeOk(Grown(v, p, c))
  {
    var w := Grown(v, p, c);
    forall i, k | i in w.kids && k in w.kids[i] ensures Kid(w, i, k) {
      if k != c {
        assert i in v.kids && k in v.kids[i] && Kid(v, i, k);
      }
    }
  }

  lemma PrunedOk(v: Tree, x: nat)
    requires TreeOk(v) && x in v.kids && x != ROOT
    ensures TreeOk(Pruned(v, x))
  {
    var w, gone := Pruned(v, x), Below(v, x);
    assert !Under(v, ROOT, x);
    forall i, k | i in w.kids && k in w.kids[i] ensures Kid(w, i, k) {
      assert Kid(v, i, k);
      assert k != ROOT && ParentDepth(v, k);
      assert !Under(v, k, x);
    }
    forall k | k in w.parent ensures w.parent[k] in w.kids && k in w.kids[w.parent[k]] {
      assert k in v.parent && k != ROOT && ParentDepth(v, k);
      assert !Under(v, k, x);
    }
  }
}
