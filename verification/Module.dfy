/** Modules and their release (service/module.go), proved against TreeSpec. */
module Modules {
  import opened Collections
  import opened TreeSpec

  datatype AddError = NoListener | Exists | InitFails

  class Module {
    var moduleId: nat
    var parent: Module?
    var ancestor: Module?
    var child: map<nat, Module>
    // Used at the root only.
    var seedModuleId: nat
    var descendants: map<nat, Module>
    var hasListener: bool

    /** A module that was not added to anything yet; a non-zero id is preset by the user. */
    constructor (moduleId: nat)
      ensures this.moduleId == moduleId && ancestor == null && parent == null && child == map[] && descendants == map[]
    {
      this.moduleId, parent, ancestor, child := moduleId, null, null, map[];
      seedModuleId, descendants, hasListener := 0, map[], false;
    }

    /** A service is the root of its modules. */
    constructor Service(hasListener: bool)
      ensures All(this) == map[ROOT := this] && View() == Mod(ROOT, map[], null, this) && this.hasListener == hasListener
      ensures moduleId == ROOT && seedModuleId == 1_000_000_000 && descendants == map[]
    {
      moduleId, parent, ancestor, child := ROOT, null, this, map[];
      seedModuleId, descendants, this.hasListener := 1_000_000_000, map[], hasListener;
    }

    method NewModuleId() returns (id: nat)
      requires ancestor != null
      modifies ancestor`seedModuleId
      ensures id == ancestor.seedModuleId == old(ancestor.seedModuleId) + 1
    {
      ancestor.seedModuleId := ancestor.seedModuleId + 1;
      id := ancestor.seedModuleId;
    }

    ghost function View(): (r: Mod)
      reads this
    {
      Mod(moduleId, child, parent, ancestor)
    }

    /** `ReleaseModule`. The recursion releases the kids of the released module through this one, and not through their
        parent. It panics when there is no such module, when this one has no ancestor any more, and exactly then when
        it comes to release this module as a kid: the parent of this module then keeps a kid that is gone. */
    method ReleaseModule(x: nat, root: Module, ghost v: Tree, ghost mods: map<nat, Module>) returns (panics: bool)
      requires TreeOk(v) && (ancestor == root || ancestor == null) && root.moduleId == ROOT
      requires x in root.descendants ==> Ready(v, mods, root.descendants, x) && Placed(this, mods, Below(v, x))
      modifies this`child, root`descendants, Objects(mods, Below(v, x))
      ensures panics <==>
                x !in old(root.descendants) || old(ancestor) == null || (moduleId in Below(v, x) && moduleId != x)
      ensures moduleId == old(moduleId) && root.descendants.Keys <= old(root.descendants.Keys)
      ensures x !in old(root.descendants) || old(ancestor) == null ==>
                root.descendants == old(root.descendants) && child == old(child)
      ensures !panics ==> root.descendants == old(root.descendants) - Below(v, x) && Cleared(mods, Below(v, x))
      ensures !panics && moduleId != x ==> child == old(child) - Below(v, x)
      ensures panics && x in old(root.descendants) && old(ancestor) == root ==>
                Dangles(v, mods, root.descendants, moduleId)
      decreases Below(v, x), 0
    {
      hide TreeOk, Below, BelowAll, Under, Intact, Cleared, Filed, Objects, Dangles;
      if ancestor == null || x !in root.descendants {
        return true;
      }
      BelowSplits(v, x);
      NothingBelow(v);
      TopIsIntact(v, mods, root.descendants, x, Below(v, x));
      RootNotBelow(v, x);
      NotAmong(v, mods, root, Below(v, x));
      var released := root.descendants[x];
      var rest := released.child.Keys;
      ghost var kids := BelowAll(v, rest);
      assert v.kids[x] - rest == {};
      MinusNothing(root.descendants);
      MinusNothing(child);
      ClearedNothing(mods);
      SubIntact(v, mods, root.descendants, Below(v, x), kids);
      SubObjects(mods, kids, Below(v, x));
      NotAmong(v, mods, released, kids);
      while rest != {}
        invariant rest <= v.kids[x] && moduleId == old(moduleId)
        invariant root.descendants == old(root.descendants) - BelowAll(v, v.kids[x] - rest)
        invariant Filed(mods, root.descendants, BelowAll(v, rest)) && Intact(v, mods, BelowAll(v, rest))
        invariant Cleared(mods, BelowAll(v, v.kids[x] - rest))
        invariant ancestor == if moduleId in BelowAll(v, v.kids[x] - rest) then null else root
        invariant ancestor == null ==> moduleId in v.kids[x]
        invariant ancestor == root ==> child == old(child) - BelowAll(v, v.kids[x] - rest)
        modifies this`child, root`descendants, Objects(mods, kids)
        decreases rest
      {
        ghost var any := OneOf(rest);
        var k :| k in rest;
        OneKidMore(v, x, rest, k);
        KidsTogether(v, x, rest, k, moduleId);
        ghost var done, next := BelowAll(v, v.kids[x] - rest), BelowAll(v, rest - {k});
        SubIntact(v, mods, root.descendants, BelowAll(v, rest), Below(v, k));
        SubIntact(v, mods, root.descendants, BelowAll(v, rest), next);
        SubObjects(mods, Below(v, k), kids);
        MinusTwice(old(root.descendants), done, Below(v, k));
        MinusTwice(old(child), done, Below(v, k));
        ghost var lost := ancestor == null;
        panics := ReleaseKid(k, root, v, mods, done, next);
        if panics {
          if lost { HasKid(v, mods, root.descendants, x, moduleId); }
          return true;
        }
        rest := rest - {k};
      }
      assert v.kids[x] - rest == v.kids[x];
      if ancestor == null {
        HasKid(v, mods, root.descendants, x, moduleId);
        return true;
      }
      ClearedLost(mods, kids, this);
      AreValues(mods, kids);
      MinusTwice(old(child), kids, {x});
      MinusTwice(old(root.descendants), kids, {x});
      child := child - {x};
      root.descendants := root.descendants - {x};
      released.Forget();
      ClearedTop(mods, x, kids);
      panics := false;
    }

    /** The end of a released module. */
    method Forget()
      modifies this
      ensures Clean(this, old(moduleId))
    {
      parent, child, ancestor, descendants := null, map[], null, map[];
    }

    /** One turn of the loop of `ReleaseModule`: what was released before stays so, and what is still to come stays in
        order. */
    method ReleaseKid(k: nat, root: Module, ghost v: Tree, ghost mods: map<nat, Module>, ghost done: set<nat>,
                      ghost next: set<nat>)
      returns (panics: bool)
      requires TreeOk(v) && (ancestor == root || ancestor == null) && root.moduleId == ROOT
      requires Ready(v, mods, root.descendants, k) && Placed(this, mods, Below(v, k)) && k in Below(v, k)
      requires Filed(mods, root.descendants, next) && Intact(v, mods, next) && Placed(this, mods, next)
      requires Cleared(mods, done) && Below(v, k) !! done && Below(v, k) !! next
      requires moduleId in next && moduleId in v.kids ==> v.kids[moduleId] !! Below(v, k)
      modifies this`child, root`descendants, Objects(mods, Below(v, k))
      ensures panics <==> old(ancestor) == null || (moduleId in Below(v, k) && moduleId != k)
      ensures moduleId == old(moduleId) && root.descendants.Keys <= old(root.descendants.Keys)
      ensures old(ancestor) == null ==> root.descendants == old(root.descendants) && child == old(child)
      ensures !panics ==> root.descendants == old(root.descendants) - Below(v, k)
      ensures !panics ==> ancestor == if moduleId in Below(v, k) then null else root
      ensures !panics && moduleId != k ==> child == old(child) - Below(v, k)
      ensures !panics ==> Cleared(mods, done + Below(v, k))
      ensures !panics ==> Filed(mods, root.descendants, next) && Intact(v, mods, next)
      ensures panics && old(ancestor) == root ==> Dangles(v, mods, root.descendants, moduleId)
      decreases Below(v, k), 1
    {
      hide TreeOk, Below, Under, Intact, Cleared, Filed, Objects, Dangles;
      TopIsIntact(v, mods, root.descendants, k, Below(v, k));
      RootNotBelow(v, k);
      Apart(v, mods, next, Below(v, k));
      ApartFromCleared(v, mods, done, Below(v, k));
      StillFiled(mods, root.descendants, next, Below(v, k));
      AreValues(mods, next);
      AreValues(mods, done);
      InObjects(mods, next);
      InObjects(mods, done);
      ghost var before, cleared := Views(mods, next), Views(mods, done);
      IntactByViews(v, mods, next);
      ClearedByViews(mods, done);
      ghost var mine := child;
      IntactChild(v, mods, next, this);
      IntactChild(v, mods, Below(v, k), this);
      ClearedLost(mods, done, this);
      panics := ReleaseModule(k, root, v, mods);
      if !panics {
        ClearedAt(mods, Below(v, k), k);
        assert mine.Keys !! Below(v, k) ==> mine - Below(v, k) == mine;
        assert Views(mods, next) == before && Views(mods, done) == cleared;
        IntactByViews(v, mods, next);
        ClearedByViews(mods, done);
        ClearedBoth(mods, done, Below(v, k));
      }
    }

    /** `AddModule`; `initFails` says how the added module's own initialisation goes. Of the modules in use only the
        kids of this one are compared. */
    method AddModule(added: Module, initFails: bool, root: Module) returns (id: nat, err: Option<AddError>)
      requires ancestor == root
      modifies this`child, added`moduleId, added`parent, added`ancestor, root`descendants, root`seedModuleId
      ensures err == Some(NoListener) <==> !root.hasListener
      ensures root.hasListener ==>
                && added.moduleId == (if old(added.moduleId) == 0 then old(root.seedModuleId) + 1
                                      else old(added.moduleId))
                && (err == Some(Exists) <==> added.moduleId in old(child))
                && (err == Some(InitFails) <==> added.moduleId !in old(child) && initFails)
      ensures root.seedModuleId == (if root.hasListener && old(added.moduleId) == 0 then old(root.seedModuleId) + 1
                                    else old(root.seedModuleId))
      ensures ROOT !in old(root.descendants) ==> ROOT !in root.descendants
      ensures err.Some? ==> All(root) == old(All(root)) && child == old(child)
      ensures err.None? ==> id == added.moduleId && id != ROOT && added.parent == this && added.ancestor == root
      ensures err.None? ==> All(root) == old(All(root))[id := added] && child == old(child)[id := added]
    {
      id, err := 0, None;
      if !root.hasListener {
        return 0, Some(NoListener);
      }
      if added.moduleId == 0 {
        added.moduleId := NewModuleId();
      }
      if added.moduleId in child {
        return 0, Some(Exists);
      }
      added.parent := this;
      added.ancestor := root;
      if initFails {
        return 0, Some(InitFails);
      }
      id := added.moduleId;
      AllGrows(root.descendants, root, id, added);
      child := child[id := added];
      root.descendants := root.descendants[id := added];
    }

    /** A call of `AddModule` on modules that form a tree. They do so afterwards exactly when the id is new to the
        tree, the added module has no kids and is not the root; a call that fails leaves them alone unless the module
        was among them. */
    method AddToTree(added: Module, initFails: bool, root: Module, ghost v: Tree, ghost views: map<nat, Mod>)
      returns (id: nat, err: Option<AddError>)
      requires ancestor == root && moduleId in All(root).Keys && All(root)[moduleId] == this
      requires TreeIn(v, All(root), views, root) && Shown(All(root), views)
      modifies this`child, added`moduleId, added`parent, added`ancestor, root`descendants, root`seedModuleId
      ensures old(moduleId) in v.kids && old(moduleId) in v.depth && old(moduleId) in views
      ensures ROOT !in old(root.descendants) ==> ROOT !in root.descendants
      ensures err.Some? && added !in old(All(root)).Values ==> Shown(All(root), views)
      ensures err.None? ==> All(root) == old(All(root))[id := added]
      ensures err.None? && id !in old(All(root)).Keys && added != root && old(added.child) == map[] ==>
                && TreeIn(Grown(v, old(moduleId), id), All(root),
                          Linked(views, old(moduleId), this, added, root, id), root)
                && Shown(All(root), Linked(views, old(moduleId), this, added, root, id))
      ensures err.None? && (id in old(All(root)).Keys || added == root || old(added.child) != map[]) ==>
                forall w, after :: Shown(All(root), after) ==> !TreeIn(w, All(root), after, root)
    {
      hide TreeIn, Linked, TreeOk, Grown, NodeIn, Shown;
      ghost var mods, p, kids := All(root), moduleId, added.child;
      TreeParts(v, mods, views, root);
      AllDiffer(v, mods, views, root);
      assert p in v.kids.Keys && views[p] == View();
      id, err := AddModule(added, initFails, root);
      if err.Some? {
        StillShown(mods, views, added);
      } else if id !in mods.Keys && added != root && kids == map[] {
        LinkKeepsTree(v, mods, views, root, p, added, id);
        NewShown(mods, views, this, p, added, id, root);
      } else {
        LinkFlaws(v, mods, views, root, p, this, added, id, kids, All(root));
      }
    }

    /** `ReleaseModule` leaves the modules outside the subtree alone, but for the kids of this one. */
    method ReleaseFiled(x: nat, root: Module, ghost v: Tree, ghost mods: map<nat, Module>, ghost views: map<nat, Mod>)
      returns (panics: bool)
      requires ancestor == root && mods == All(root) && moduleId in mods && mods[moduleId] == this
      requires TreeIn(v, mods, views, root) && Shown(mods, views) && x in root.descendants && x != ROOT
      modifies this`child, root`descendants, Objects(mods, Below(v, x))
      ensures panics <==> moduleId in Below(v, x) && moduleId != x
      ensures moduleId == old(moduleId) && root.descendants.Keys <= old(root.descendants.Keys)
      ensures !panics ==> root.descendants == old(root.descendants) - Below(v, x) && Cleared(mods, Below(v, x))
      ensures panics ==> Dangles(v, mods, root.descendants, moduleId)
      ensures moduleId !in Below(v, x) ==> View() == old(View()).(child := old(child) - Below(v, x))
      ensures forall i :: i in mods && i != moduleId && i !in Below(v, x) ==> mods[i].View() == views[i]
    {
      hide TreeIn, TreeOk, NodeIn, Below, Under, Intact, Cleared, Filed, Objects, Dangles, Shown;
      TreeParts(v, mods, views, root);
      AllDiffer(v, mods, views, root);
      assert mods[ROOT] == root;
      ReadyForRelease(v, mods, views, root, x);
      ghost var gone, me := Below(v, x), moduleId;
      AreValues(mods, gone);
      if me !in gone {
        NotTheirs(mods, gone, me);
        SelfBelow(v, x);
      }
      panics := ReleaseModule(x, root, v, mods);
      forall i | i in mods && i != me && i !in gone ensures mods[i].View() == views[i] {
        NotTheirs(mods, gone, i);
        assert mods[i] != this;
      }
    }

    /** A call of `ReleaseModule` on modules that form a tree. Without a panic exactly the subtree is gone from the
        descendants of the root. The rest is a tree exactly when this module is the parent of the released one. */
    method ReleaseSubtree(x: nat, root: Module, ghost v: Tree, ghost views: map<nat, Mod>) returns (panics: bool)
      requires ancestor == root && moduleId in All(root).Keys && All(root)[moduleId] == this
      requires TreeIn(v, All(root), views, root) && Shown(All(root), views) && ROOT !in root.descendants
      modifies this`child, root`descendants, Objects(All(root), Below(v, x))
      ensures moduleId == old(moduleId) && moduleId in v.kids && moduleId in views
      ensures panics <==> x !in old(root.descendants) || (moduleId in Below(v, x) && moduleId != x)
      ensures x !in old(root.descendants) ==> All(root) == old(All(root)) && child == old(child)
      ensures !panics ==> All(root) == old(All(root)) - Below(v, x) && Cleared(old(All(root)), Below(v, x))
      ensures x in old(root.descendants) && moduleId !in Below(v, x) ==>
                Shown(All(root), Unlinked(views, moduleId, Below(v, x)))
      ensures x in old(root.descendants) && x in v.kids[moduleId] ==>
                !panics && moduleId !in Below(v, x)
                && TreeIn(Pruned(v, x), All(root), Unlinked(views, moduleId, Below(v, x)), root)
      ensures x in old(root.descendants) && x !in v.kids[moduleId] ==>
                forall w, after :: Shown(All(root), after) ==> !TreeIn(w, All(root), after, root)
    {
      hide TreeIn, TreeOk, NodeIn, Below, Under, Intact, Cleared, Filed, Objects;
      hide Pruned, Unlinked, Dangles, Shown, Flawed;
      ghost var mods, descendants := All(root), root.descendants;
      TreeParts(v, mods, views, root);
      AllDiffer(v, mods, views, root);
      assert mods[ROOT] == root && moduleId in v.kids.Keys && views[moduleId] == View();
      if x !in root.descendants {
        panics := ReleaseModule(x, root, v, mods);
        return;
      }
      ghost var gone := Below(v, x);
      ghost var q := ParentOutsideOf(v, mods, views, root, x);
      if x in v.kids[moduleId] { ParentNotBelow(v, x, moduleId); }
      RootNotBelow(v, x);
      panics := ReleaseFiled(x, root, v, mods, views);
      AllShrinks(descendants, root, gone);
      if panics {
        DanglesIsFlawed(v, mods, root, moduleId);
        FlawedIsNoTree(All(root), root, v.parent[moduleId], v.parent[moduleId], moduleId);
        return;
      }
      if moduleId !in gone { RestShown(mods, views, this, moduleId, gone); }
      if x in v.kids[moduleId] {
        ReleaseKeepsTree(v, mods, views, root, moduleId, x);
      } else {
        KidLost(mods, views, All(root), gone, q, x);
        FlawedIsNoTree(All(root), root, q, q, x);
      }
    }
  }

  /** The root has another id, or a module has a kid that is not the one filed under its id, that is the root or
      the module itself, or that is a kid of two modules. */
  ghost predicate Flawed(all: map<nat, Module>, p: nat, q: nat, k: nat)
    reads all.Values
  {
    || (ROOT in all && all[ROOT].moduleId != ROOT)
    || (q in all && k in all[q].child && (k !in all || all[q].child[k] != all[k] || k == ROOT || k == q))
    || (p in all && q in all && p != q && k in all[p].child && k in all[q].child)
  }

  lemma FlawedIsNoTree(all: map<nat, Module>, root: Module, p: nat, q: nat, k: nat)
    requires Flawed(all, p, q, k)
    ensures forall w, after :: Shown(all, after) ==> !TreeIn(w, all, after, root)
  {
    hide TreeIn;
    forall w, after | Shown(all, after) ensures !TreeIn(w, all, after, root) {
      if TreeIn(w, all, after, root) { TreeHasNoFlaw(w, all, after, root, p, q, k); }
    }
  }

  lemma TreeHasNoFlaw(w: Tree, all: map<nat, Module>, after: map<nat, Mod>, root: Module, p: nat, q: nat, k: nat)
    requires TreeIn(w, all, after, root) && Shown(all, after)
    ensures !Flawed(all, p, q, k)
  {
    hide TreeOk, NodeIn;
    RootNumbered(w, all, after, root);
    if q in all && k in all[q].child { KidFiled(w, all, after, root, q, k); }
    if p in all && k in all[p].child { KidFiled(w, all, after, root, p, k); }
  }

  lemma RootNumbered(w: Tree, all: map<nat, Module>, after: map<nat, Mod>, root: Module)
    requires TreeIn(w, all, after, root) && Shown(all, after)
    ensures ROOT in all ==> all[ROOT].moduleId == ROOT
  {
    assert ROOT in w.kids.Keys && NodeIn(w, all, after, root, ROOT);
  }

  lemma KidFiled(w: Tree, all: map<nat, Module>, after: map<nat, Mod>, root: Module, q: nat, k: nat)
    requires TreeIn(w, all, after, root) && Shown(all, after) && q in all && k in all[q].child
    ensures k in all && all[q].child[k] == all[k] && k != ROOT && k != q && k in w.parent && w.parent[k] == q
  {
    assert q in w.kids.Keys && NodeIn(w, all, after, root, q);
    assert Kid(w, q, k);
  }

  lemma DanglesIsFlawed(v: Tree, mods: map<nat, Module>, root: Module, k: nat)
    requires Dangles(v, mods, root.descendants, k) && k != ROOT && ROOT !in root.descendants
    ensures k in v.parent && Flawed(All(root), v.parent[k], v.parent[k], k)
  {
  }

  /** The parent of a released module that was not asked to release it still has it as a kid. */
  lemma KidLost(mods: map<nat, Module>, views: map<nat, Mod>, all: map<nat, Module>, gone: set<nat>, q: nat, x: nat)
    requires q in mods && q in views && q !in gone && x in gone && all == mods - gone
    requires mods[q].View() == views[q] && x in views[q].child
    ensures Flawed(all, q, q, x)
  {
  }

  lemma ParentOutsideOf(v: Tree, mods: map<nat, Module>, views: map<nat, Mod>, root: Module, x: nat) returns (q: nat)
    requires TreeIn(v, mods, views, root) && x in mods && x != ROOT
    ensures q in mods && q in views && x in views[q].child
    ensures q in v.kids && x in v.kids[q] && q !in Below(v, x) && x in Below(v, x)
  {
    hide TreeOk, NodeIn, Below;
    q := ParentFiles(v, mods, views, root, x);
    TreeParts(v, mods, views, root);
    assert q in v.kids.Keys && NodeIn(v, mods, views, root, q);
    ViewsKids(v, mods, views, root, q);
    ParentNotBelow(v, x, q);
  }

  lemma ViewsKids(v: Tree, mods: map<nat, Module>, views: map<nat, Mod>, root: Module, q: nat)
    requires NodeIn(v, mods, views, root, q)
    ensures q in v.kids && q in views && views[q].child.Keys == v.kids[q]
  {
  }

  lemma AllShrinks(descendants: map<nat, Module>, root: Module, gone: set<nat>)
    requires ROOT !in gone
    ensures (descendants - gone)[ROOT := root] == descendants[ROOT := root] - gone
  {
  }

  lemma NotTheirs(mods: map<nat, Module>, ids: set<nat>, i: nat)
    requires forall i, j :: i in mods && j in mods && i != j ==> mods[i] != mods[j]
    requires i in mods && i !in ids
    ensures mods[i] !in Objects(mods, ids)
  {
  }

  lemma RestShown(mods: map<nat, Module>, views: map<nat, Mod>, o: Module, p: nat, gone: set<nat>)
    requires mods.Keys == views.Keys && p in mods && p in views && mods[p] == o && p !in gone
    requires o.View() == views[p].(child := views[p].child - gone)
    requires forall i :: i in mods && i != p && i !in gone ==> mods[i].View() == views[i]
    ensures Shown(mods - gone, Unlinked(views, p, gone))
  {
    assert (mods - gone).Keys == Unlinked(views, p, gone).Keys;
  }

  lemma MinusTwice<V>(m: map<nat, V>, a: set<nat>, b: set<nat>)
    ensures m - a - b == m - (a + b) == m - (b + a)
  {
  }

  lemma MinusNothing<V>(m: map<nat, V>)
    ensures m - {} == m
  {
  }

  ghost function Objects(mods: map<nat, Module>, ids: set<nat>): (r: set<Module>) {
    set i | i in ids && i in mods :: mods[i]
  }

  ghost predicate Filed(mods: map<nat, Module>, descendants: map<nat, Module>, ids: set<nat>) {
    forall i :: i in ids ==> i in mods && i in descendants && descendants[i] == mods[i]
  }

  /** The modules of some ids carry their ids and have the kids that the tree says. */
  ghost predicate Intact(v: Tree, mods: map<nat, Module>, ids: set<nat>)
    reads Objects(mods, ids)
  {
    forall i :: i in ids && i in mods ==> mods[i].moduleId == i && i in v.kids && mods[i].child.Keys == v.kids[i]
  }

  ghost predicate Cleared(mods: map<nat, Module>, ids: set<nat>)
    reads Objects(mods, ids)
  {
    forall i :: i in ids && i in mods ==> Clean(mods[i], i)
  }

  ghost predicate Clean(o: Module, i: nat)
    reads o
  {
    o.moduleId == i && o.child == map[] && o.parent == null && o.ancestor == null
  }

  /** A subtree is in order, and the root knows all of it. */
  ghost predicate Ready(v: Tree, mods: map<nat, Module>, descendants: map<nat, Module>, x: nat)
    requires TreeOk(v)
    reads Objects(mods, Below(v, x))
  {
    x in v.kids && x != ROOT && Filed(mods, descendants, Below(v, x)) && Intact(v, mods, Below(v, x))
  }

  /** A module whose id is one of those is the one filed under it. */
  ghost predicate Placed(o: Module, mods: map<nat, Module>, ids: set<nat>)
    reads o`moduleId
  {
    o.moduleId in ids ==> o.moduleId in mods && mods[o.moduleId] == o
  }

  ghost function Views(mods: map<nat, Module>, ids: set<nat>): (r: map<nat, Mod>)
    reads Objects(mods, ids)
  {
    map i | i in ids && i in mods :: mods[i].View()
  }

  lemma IntactByViews(v: Tree, mods: map<nat, Module>, ids: set<nat>)
    ensures Intact(v, mods, ids) <==> IntactViews(v, Views(mods, ids))
  {
    assert forall i :: i in ids && i in mods ==> Views(mods, ids)[i] == mods[i].View();
  }

  lemma ClearedByViews(mods: map<nat, Module>, ids: set<nat>)
    ensures Cleared(mods, ids) <==> ClearedViews(Views(mods, ids))
  {
    assert forall i :: i in ids && i in mods ==> Views(mods, ids)[i] == mods[i].View();
  }

  ghost predicate IntactViews(v: Tree, views: map<nat, Mod>) {
    forall i :: i in views ==> views[i].id == i && i in v.kids && views[i].child.Keys == v.kids[i]
  }

  ghost predicate ClearedViews(views: map<nat, Mod>) {
    forall i :: i in views ==> views[i] == Mod(i, map[], null, null)
  }

  lemma IntactChild(v: Tree, mods: map<nat, Module>, ids: set<nat>, o: Module)
    requires Intact(v, mods, ids) && Placed(o, mods, ids)
    ensures o.moduleId in ids ==> o.moduleId in v.kids && o.child.Keys == v.kids[o.moduleId]
    ensures o.moduleId !in ids ==> o !in Objects(mods, ids)
  {
  }

  lemma ClearedAt(mods: map<nat, Module>, ids: set<nat>, k: nat)
    requires Cleared(mods, ids) && k in ids && k in mods
    ensures Clean(mods[k], k)
  {
  }

  lemma ClearedLost(mods: map<nat, Module>, ids: set<nat>, o: Module)
    requires Cleared(mods, ids)
    ensures o in Objects(mods, ids) ==> o.ancestor == null
  {
  }

  /** The parent of a module that is gone is still there and has it as a kid. */
  ghost predicate Dangles(v: Tree, mods: map<nat, Module>, descendants: map<nat, Module>, k: nat)
    reads mods.Values
  {
    && k !in descendants && k in v.parent
    && var q := v.parent[k];
       q in mods && q in descendants && descendants[q] == mods[q] && k in mods[q].child
  }

  lemma HasKid(v: Tree, mods: map<nat, Module>, descendants: map<nat, Module>, x: nat, k: nat)
    requires TreeOk(v) && x in v.kids && x in mods && x in descendants && descendants[x] == mods[x]
    ensures k in v.kids[x] && k in mods[x].child && k !in descendants ==> Dangles(v, mods, descendants, k)
  {
    assert k in v.kids[x] ==> Kid(v, x, k);
  }

  lemma TopIsIntact(v: Tree, mods: map<nat, Module>, descendants: map<nat, Module>, x: nat, ids: set<nat>)
    requires Filed(mods, descendants, ids) && Intact(v, mods, ids) && x in ids
    ensures x in descendants && x in mods && descendants[x] == mods[x] && x in v.kids
    ensures mods[x].moduleId == x && mods[x].child.Keys == v.kids[x] && mods[x] in Objects(mods, ids)
  {
  }

  lemma NotAmong(v: Tree, mods: map<nat, Module>, o: Module, ids: set<nat>)
    requires Intact(v, mods, ids) && o.moduleId !in ids
    ensures o !in Objects(mods, ids)
  {
  }

  lemma ClearedNothing(mods: map<nat, Module>)
    ensures Cleared(mods, {})
  {
  }

  lemma SubIntact(v: Tree, mods: map<nat, Module>, descendants: map<nat, Module>, ids: set<nat>, some: set<nat>)
    requires Filed(mods, descendants, ids) && Intact(v, mods, ids) && some <= ids
    ensures Filed(mods, descendants, some) && Intact(v, mods, some)
  {
  }

  lemma SubObjects(mods: map<nat, Module>, some: set<nat>, ids: set<nat>)
    requires some <= ids
    ensures Objects(mods, some) <= Objects(mods, ids)
  {
  }

  lemma InObjects(mods: map<nat, Module>, ids: set<nat>)
    ensures forall i :: i in ids && i in mods ==> mods[i] in Objects(mods, ids)
  {
  }

  lemma AreValues(mods: map<nat, Module>, ids: set<nat>)
    ensures Objects(mods, ids) <= mods.Values
  {
  }

  lemma Apart(v: Tree, mods: map<nat, Module>, a: set<nat>, b: set<nat>)
    requires Intact(v, mods, a) && Intact(v, mods, b) && a !! b
    ensures Objects(mods, a) !! Objects(mods, b)
  {
  }

  lemma ApartFromCleared(v: Tree, mods: map<nat, Module>, a: set<nat>, b: set<nat>)
    requires Cleared(mods, a) && Intact(v, mods, b) && a !! b
    ensures Objects(mods, a) !! Objects(mods, b)
  {
  }

  lemma StillFiled(mods: map<nat, Module>, descendants: map<nat, Module>, ids: set<nat>, gone: set<nat>)
    requires Filed(mods, descendants, ids) && ids !! gone
    ensures Filed(mods, descendants - gone, ids)
  {
  }

  lemma ClearedBoth(mods: map<nat, Module>, a: set<nat>, b: set<nat>)
    requires Cleared(mods, a) && Cleared(mods, b)
    ensures Cleared(mods, a + b)
  {
  }

  lemma ClearedTop(mods: map<nat, Module>, x: nat, ids: set<nat>)
    requires Cleared(mods, ids) && (x in mods ==> Clean(mods[x], x))
    ensures Cleared(mods, {x} + ids)
  {
  }

  /** What a module object holds. */
  datatype Mod = Mod(id: nat, child: map<nat, Module>, parent: Module?, ancestor: Module?)

  /** The service and all modules below it, by id. */
  ghost function All(root: Module): (r: map<nat, Module>)
    reads root
  {
    root.descendants[ROOT := root]
  }

  lemma AllGrows(descendants: map<nat, Module>, root: Module, id: nat, added: Module)
    requires id != ROOT
    ensures descendants[id := added][ROOT := root] == descendants[ROOT := root][id := added]
  {
  }

  ghost predicate Shown(mods: map<nat, Module>, views: map<nat, Mod>)
    reads mods.Values
  {
    mods.Keys == views.Keys && forall i :: i in mods ==> mods[i].View() == views[i]
  }

  /** One of the modules has the kids and the parent that the tree says. */
  ghost predicate NodeIn(v: Tree, mods: map<nat, Module>, views: map<nat, Mod>, root: Module, i: nat) {
    && i in v.kids && i in views && i in mods
    && var o := views[i];
       && o.id == i && o.ancestor == root && o.child.Keys == v.kids[i]
       && (forall k :: k in o.child ==> k in mods && o.child[k] == mods[k])
       && (i != ROOT ==> i in v.parent && v.parent[i] in mods && o.parent == mods[v.parent[i]])
  }

  /** The modules are arranged as the tree says. */
  ghost predicate TreeIn(v: Tree, mods: map<nat, Module>, views: map<nat, Mod>, root: Module) {
    && TreeOk(v) && v.kids.Keys == mods.Keys == views.Keys
    && forall i :: i in v.kids ==> NodeIn(v, mods, views, root, i)
  }

  /** The modules after linking `added` under `p`. */
  ghost function Linked(views: map<nat, Mod>, p: nat, o: Module, added: Module, root: Module, id: nat)
    : (r: map<nat, Mod>)
    requires p in views
  {
    views[p := views[p].(child := views[p].child[id := added])][id := Mod(id, map[], o, root)]
  }

  lemma LinkKeepsNode(v: Tree, mods: map<nat, Module>, views: map<nat, Mod>, root: Module, p: nat, added: Module,
                      id: nat, i: nat)
    requires p in v.kids && p in v.depth && p in mods && p in views && id !in mods && id !in v.kids
    requires i != id ==> NodeIn(v, mods, views, root, i)
    ensures NodeIn(Grown(v, p, id), mods[id := added], Linked(views, p, mods[p], added, root, id), root, i)
  {
  }

  lemma TreeParts(v: Tree, mods: map<nat, Module>, views: map<nat, Mod>, root: Module)
    requires TreeIn(v, mods, views, root)
    ensures TreeOk(v) && v.depth.Keys == v.kids.Keys == mods.Keys == views.Keys
  {
  }

  lemma LinkKeepsTree(v: Tree, mods: map<nat, Module>, views: map<nat, Mod>, root: Module, p: nat, added: Module,
                      id: nat)
    requires TreeIn(v, mods, views, root) && p in mods.Keys && id !in mods.Keys
    ensures p in v.kids && p in v.depth && p in views
    ensures TreeIn(Grown(v, p, id), mods[id := added], Linked(views, p, mods[p], added, root, id), root)
  {
    hide TreeOk, NodeIn;
    TreeParts(v, mods, views, root);
    GrownOk(v, p, id);
    forall i | i in Grown(v, p, id).kids
      ensures NodeIn(Grown(v, p, id), mods[id := added], Linked(views, p, mods[p], added, root, id), root, i)
    {
      assert i != id ==> i in v.kids.Keys;
      LinkKeepsNode(v, mods, views, root, p, added, id, i);
    }
  }

  /** Different ids belong to different modules. */
  lemma AllDiffer(v: Tree, mods: map<nat, Module>, views: map<nat, Mod>, root: Module)
    requires TreeIn(v, mods, views, root) && Shown(mods, views)
    ensures forall i, j :: i in mods && j in mods && i != j ==> mods[i] != mods[j]
    ensures forall i :: i in mods ==> mods[i].moduleId == i && i in views && mods[i].View() == views[i]
  {
    forall i | i in mods ensures mods[i].moduleId == i {
      assert i in v.kids.Keys && NodeIn(v, mods, views, root, i) && mods[i].View() == views[i];
    }
  }

  lemma StillShown(mods: map<nat, Module>, views: map<nat, Mod>, added: Module)
    requires mods.Keys == views.Keys && forall i :: i in mods && mods[i] != added ==> mods[i].View() == views[i]
    ensures added !in mods.Values ==> Shown(mods, views)
  {
  }

  lemma NewShown(mods: map<nat, Module>, views: map<nat, Mod>, o: Module, p: nat, added: Module, id: nat, root: Module)
    requires mods.Keys == views.Keys && p in mods && p in views && mods[p] == o && id !in mods
    requires o.View() == views[p].(child := views[p].child[id := added]) && added.View() == Mod(id, map[], o, root)
    requires forall i :: i in mods && i != p ==> mods[i].View() == views[i]
    ensures Shown(mods[id := added], Linked(views, p, o, added, root, id))
  {
    assert mods[id := added].Keys == Linked(views, p, o, added, root, id).Keys;
  }

  /** Why a module with an id in use, with kids or at the root cannot be added: its id gets a second parent or
      another module, its kids do, or the root gets another id. */
  lemma LinkFlaws(v: Tree, mods: map<nat, Module>, views: map<nat, Mod>, root: Module, p: nat, o: Module,
                  added: Module, id: nat, kids: map<nat, Module>, all: map<nat, Module>)
    requires TreeIn(v, mods, views, root) && p in mods && mods[p] == o && ROOT in mods && mods[ROOT] == root
    requires forall i, j :: i in mods && j in mods && i != j ==> mods[i] != mods[j]
    requires forall i :: i in mods && mods[i] != o ==> i in views && mods[i].child == views[i].child
    requires p in views && id !in views[p].child && o.child == views[p].child[id := added]
    requires id != ROOT && added.moduleId == id && (added != o ==> added.child == kids)
    requires added in mods.Values && added != root ==> id in mods && mods[id] == added
    requires id in mods || added == root || kids != map[]
    requires all == mods[id := added]
    ensures forall w, after :: Shown(all, after) ==> !TreeIn(w, all, after, root)
  {
    hide TreeIn, Flawed, Shown;
    if added == root {
      RootFlaw(all, root);
      FlawedIsNoTree(all, root, ROOT, ROOT, ROOT);
    } else if id in mods {
      var q := ParentFiles(v, mods, views, root, id);
      IdFlaw(mods, views, p, o, added, id, q);
      FlawedIsNoTree(all, root, p, q, id);
    } else {
      var k := OneOf(kids.Keys);
      var q := id;
      if k in mods && k != ROOT { q := ParentFiles(v, mods, views, root, k); }
      KidFlaw(mods, added, id, q, k);
      FlawedIsNoTree(all, root, id, q, k);
    }
  }

  lemma ParentOf(v: Tree, k: nat) returns (p: nat)
    requires TreeOk(v) && k in v.kids.Keys && k != ROOT
    ensures p in v.kids && k in v.kids[p] && p != k
  {
    assert ParentDepth(v, k);
    p := v.parent[k];
  }

  lemma RootFlaw(all: map<nat, Module>, root: Module)
    requires ROOT in all && all[ROOT] == root && root.moduleId != ROOT
    ensures Flawed(all, ROOT, ROOT, ROOT)
  {
  }

  lemma IdFlaw(mods: map<nat, Module>, views: map<nat, Mod>, p: nat, o: Module, added: Module, id: nat, q: nat)
    requires p in mods && mods[p] == o && id in mods && p in views && id !in views[p].child
    requires q in mods && q in views && id in views[q].child && views[q].child[id] == mods[id] && q != id
    requires mods[q] != o ==> mods[q].child == views[q].child
    requires q != p ==> mods[q] != o
    requires id in o.child
    ensures Flawed(mods[id := added], p, q, id)
  {
  }

  lemma KidFlaw(mods: map<nat, Module>, added: Module, id: nat, q: nat, k: nat)
    requires id !in mods && k in added.child
    requires if k in mods && k != ROOT then q in mods && k in mods[q].child else q == id
    ensures Flawed(mods[id := added], id, q, k)
  {
  }

  /** The parent of a module in a tree, by what the modules hold. */
  lemma ParentFiles(v: Tree, mods: map<nat, Module>, views: map<nat, Mod>, root: Module, k: nat) returns (q: nat)
    requires TreeIn(v, mods, views, root) && k in mods && k != ROOT
    ensures q in mods && q in views && k in views[q].child && views[q].child[k] == mods[k] && q != k
  {
    hide TreeOk, NodeIn;
    TreeParts(v, mods, views, root);
    assert k in v.kids.Keys;
    q := ParentOf(v, k);
    assert NodeIn(v, mods, views, root, q) && q in views.Keys && q in mods.Keys;
    ParentsKid(v, mods, views, root, q, k);
  }

  lemma ParentsKid(v: Tree, mods: map<nat, Module>, views: map<nat, Mod>, root: Module, q: nat, k: nat)
    requires NodeIn(v, mods, views, root, q) && q in v.kids && k in v.kids[q]
    ensures q in views && k in views[q].child && k in mods && views[q].child[k] == mods[k]
  {
  }

  lemma ParentsKid2(v: Tree, mods: map<nat, Module>, views: map<nat, Mod>, root: Module, q: nat, k: nat)
    requires NodeIn(v, mods, views, root, q) && q in views && k in views[q].child
    ensures k in mods && views[q].child[k] == mods[k]
  {
  }

  /** The modules after `p` released `gone`. */
  ghost function Unlinked(views: map<nat, Mod>, p: nat, gone: set<nat>): (r: map<nat, Mod>)
    requires p in views
  {
    (views - gone)[p := views[p].(child := views[p].child - gone)]
  }

  lemma ReleaseKeepsNode(v: Tree, mods: map<nat, Module>, views: map<nat, Mod>, root: Module, p: nat, x: nat, i: nat)
    requires TreeOk(v) && NodeIn(v, mods, views, root, i) && p in views && p in v.kids && x in v.kids[p]
    requires p !in Below(v, x) && i !in Below(v, x) && x in v.kids
    ensures NodeIn(Pruned(v, x), mods - Below(v, x), Unlinked(views, p, Below(v, x)), root, i)
  {
    KidsOutside(v, x, i);
    KidsOutside(v, x, p);
    if i != ROOT { ParentOutside(v, x, i); }
  }

  /** Outside a subtree, only the parent of its top has a kid in it, and only the top. */
  lemma KidsOutside(v: Tree, x: nat, i: nat)
    requires TreeOk(v) && x in v.kids && i in v.kids && i !in Below(v, x)
    ensures forall k :: k in v.kids[i] && k in Below(v, x) ==> k == x
    ensures x in Below(v, x) && x != ROOT ==> x in v.parent && (x in v.kids[i] ==> v.parent[x] == i)
  {
    assert Under(v, x, x);
    forall k | k in v.kids[i] && k in Below(v, x) ensures k == x {
      assert Kid(v, i, k);
      assert ParentDepth(v, k);
    }
    assert x in v.kids[i] ==> Kid(v, i, x);
    assert x != ROOT ==> ParentDepth(v, x);
  }

  lemma ParentOutside(v: Tree, x: nat, i: nat)
    requires TreeOk(v) && x in v.kids && i in v.kids && i !in Below(v, x) && i != ROOT
    ensures i in v.parent && v.parent[i] in v.kids && v.parent[i] !in Below(v, x)
  {
    assert ParentDepth(v, i);
  }

  /** Releasing a subtree through the parent of its top leaves the tree without that subtree. */
  lemma ReleaseKeepsTree(v: Tree, mods: map<nat, Module>, views: map<nat, Mod>, root: Module, p: nat, x: nat)
    requires TreeIn(v, mods, views, root) && p in v.kids.Keys && x in v.kids.Keys && x != ROOT && p !in Below(v, x)
    requires p in views && x in v.kids[p]
    ensures TreeIn(Pruned(v, x), mods - Below(v, x), Unlinked(views, p, Below(v, x)), root)
  {
    hide TreeOk, NodeIn, Below, Under;
    TreeParts(v, mods, views, root);
    PrunedOk(v, x);
    PrunedKeys(v, x);
    forall i | i in Pruned(v, x).kids.Keys
      ensures NodeIn(Pruned(v, x), mods - Below(v, x), Unlinked(views, p, Below(v, x)), root, i)
    {
      ReleaseKeepsNode(v, mods, views, root, p, x, i);
    }
  }

  lemma PrunedKeys(v: Tree, x: nat)
    requires TreeOk(v)
    ensures Pruned(v, x).kids.Keys == v.kids.Keys - Below(v, x)
  {
  }

  /** Releasing it through any other module leaves the parent of its top with a kid that is no descendant any more. */
  lemma ReleaseElsewhereBreaksTree(v: Tree, mods: map<nat, Module>, views: map<nat, Mod>, root: Module, p: nat, x: nat,
                                   w: Tree)
    requires TreeIn(v, mods, views, root) && p in v.kids.Keys && x in v.kids.Keys && x != ROOT && p !in Below(v, x)
    requires p in views && x !in v.kids[p]
    ensures !TreeIn(w, mods - Below(v, x), Unlinked(views, p, Below(v, x)), root)
  {
    hide TreeOk, NodeIn, ParentDepth;
    TreeParts(v, mods, views, root);
    var q := ParentOf(v, x);
    assert NodeIn(v, mods, views, root, q);
    ParentsKid(v, mods, views, root, q, x);
    ParentNotBelow(v, x, q);
    var mods', views' := mods - Below(v, x), Unlinked(views, p, Below(v, x));
    if TreeIn(w, mods', views', root) {
      assert q in mods'.Keys && q in w.kids.Keys && NodeIn(w, mods', views', root, q);
      ParentsKid2(w, mods', views', root, q, x);
    }
  }

  lemma ParentNotBelow(v: Tree, x: nat, q: nat)
    requires TreeOk(v) && q in v.kids && x in v.kids[q]
    ensures q !in Below(v, x) && x in Below(v, x)
  {
    KidUnder(v, q, x);
    assert Under(v, x, x);
  }

  /** A tree that is in order lets any module outside a subtree release it. */
  lemma ReadyForRelease(v: Tree, mods: map<nat, Module>, views: map<nat, Mod>, root: Module, x: nat)
    requires TreeIn(v, mods, views, root) && Shown(mods, views) && mods == All(root) && x in v.kids && x != ROOT
    requires root.moduleId == ROOT
    ensures TreeOk(v) && Filed(mods, root.descendants, Below(v, x)) && Intact(v, mods, Below(v, x))
  {
    hide TreeOk, Under, ParentDepth;
    RootNotBelow(v, x);
    forall i | i in Below(v, x)
      ensures i in mods && i in root.descendants && root.descendants[i] == mods[i]
      ensures mods[i].moduleId == i && i in v.kids && mods[i].child.Keys == v.kids[i]
    {
      assert i in v.kids.Keys && NodeIn(v, mods, views, root, i);
      assert mods[i].View() == views[i];
    }
  }
}
