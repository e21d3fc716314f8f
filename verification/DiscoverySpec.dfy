/** What the messages of dynamic service discovery mean (cluster/dynamicdiscovery.go): the registry of a master, the
    lists it sends, and what a node makes of them. */
module DiscoverySpec {
  import opened Collections
  import opened ClusterSpec

  const DISCOVERY_CLIENT: Service := "DiscoveryClient"

  /** A node as masters describe it. */
  datatype Info = Info(id: int, addr: string, publics: seq<Service>, hidden: bool)

  /** A list from a master: everything it knows, or news; and possibly a node that is gone. */
  datatype Req = Req(master: int, full: bool, infos: seq<Info>, del: int)

  // Part 1: The registry of a master.

  datatype Registry = Registry(reg: map<int, bool>, infos: seq<Info>) {
    predicate IsReg(n: int) {
      n in reg && reg[n]
    }

    /** `addNodeInfo`: a node without public services is not taken in. */
    function Add(info: Info): (r: Registry) {
      if info.publics == [] then this else Registry(reg[info.id := true], infos + [info])
    }

    /** `removeNodeInfo`: every entry of the node goes, the local node stays. */
    function Remove(n: int, local: int): (r: Registry) {
      if n == 0 || n == local then this else Registry(reg[n := false], Others(infos, n))
    }
  }

  const NOBODY_REGISTERED := Registry(map[], [])

  /** The entries of all nodes but `n`, in order. */
  function Others(infos: seq<Info>, n: int): (out: seq<Info>)
    ensures |out| <= |infos|
  {
    if infos == [] then []
    else Others(infos[..|infos| - 1], n) + if infos[|infos| - 1].id == n then [] else [infos[|infos| - 1]]
  }

  lemma {:induction false} OthersMeaning(infos: seq<Info>, n: int, x: Info)
    ensures x in Others(infos, n) <==> x in infos && x.id != n
  {
    if infos != [] {
      OthersMeaning(infos[..|infos| - 1], n, x);
      assert infos == infos[..|infos| - 1] + [infos[|infos| - 1]];
    }
  }

  /** The flags and the list of a registry name the same nodes. */
  ghost predicate Agrees(r: Registry) {
    && (forall n :: r.IsReg(n) <==> exists x :: x in r.infos && x.id == n)
    && (forall x :: x in r.infos ==> x.publics != [])
  }

  lemma AddAgrees(r: Registry, info: Info)
    requires Agrees(r)
    ensures Agrees(r.Add(info))
  {
    forall n ensures r.Add(info).IsReg(n) <==> exists x :: x in r.Add(info).infos && x.id == n {
      if r.IsReg(n) {
        var x :| x in r.infos && x.id == n;
        assert x in r.Add(info).infos;
      }
      if n == info.id && info.publics != [] { assert info in r.Add(info).infos; }
    }
  }

  lemma RemoveAgrees(r: Registry, n: int, local: int)
    requires Agrees(r)
    ensures Agrees(r.Remove(n, local))
  {
    if n != 0 && n != local {
      forall x ensures x in Others(r.infos, n) <==> x in r.infos && x.id != n { OthersMeaning(r.infos, n, x); }
      forall m ensures r.Remove(n, local).IsReg(m) <==> exists x :: x in Others(r.infos, n) && x.id == m {
        if m != n && r.IsReg(m) {
          var x :| x in r.infos && x.id == m;
          assert x in Others(r.infos, n);
        }
      }
    }
  }

  lemma {:induction false} OthersCount(infos: seq<Info>, n: int, x: Info)
    ensures multiset(Others(infos, n))[x] == if x.id == n then 0 else multiset(infos)[x]
  {
    if infos != [] {
      var last := |infos| - 1;
      OthersCount(infos[..last], n, x);
      assert infos == infos[..last] + [infos[last]];
    }
  }

  // Part 2: The claims of a node.

  /** A node that listens to masters, and whether it is one itself. */
  datatype Viewer = Viewer(local: int, isMaster: bool)

  /** The node takes notice of the entry: not of itself, nor of nodes that offer nothing, nor, unless it is a
      master, of nodes that merely run the discovery client. */
  predicate Notices(v: Viewer, info: Info) {
    && info.id != v.local && info.publics != []
    && !(!v.isMaster && info.publics == [DISCOVERY_CLIENT])
  }

  function Noticed(v: Viewer, infos: seq<Info>): (r: set<int>) {
    set x | x in infos && Notices(v, x) :: x.id
  }

  /** The nodes a message takes away from the claims `was`: for a full list those it does not mention, and in any
      case the node it declares gone. */
  function Dropped(v: Viewer, was: set<int>, req: Req): (r: set<int>) {
    (if req.full then was - Noticed(v, req.infos) else {})
    + (if req.del > 0 && req.del != v.local then {req.del} else {})
  }

  /** The claims after a message, deletions first. */
  function Claimed(v: Viewer, was: set<int>, req: Req): (r: set<int>) {
    was - Dropped(v, was, req) + Noticed(v, req.infos)
  }

  /** A full list leaves exactly what it mentions, whatever was claimed before and whatever it deletes. */
  lemma FullSyncIsExact(v: Viewer, was: set<int>, req: Req)
    requires req.full
    ensures Claimed(v, was, req) == Noticed(v, req.infos)
  {
  }

  /** The claims after several messages, in order. */
  function ClaimedAll(v: Viewer, was: set<int>, reqs: seq<Req>): (r: set<int>)
    decreases |reqs|
  {
    if reqs == [] then was else ClaimedAll(v, Claimed(v, was, reqs[0]), reqs[1..])
  }

  lemma {:induction false} ClaimedLast(v: Viewer, was: set<int>, reqs: seq<Req>, req: Req)
    ensures ClaimedAll(v, was, reqs + [req]) == Claimed(v, ClaimedAll(v, was, reqs), req)
    decreases |reqs|
  {
    if reqs == [] {
      assert [req][1..] == [];
    } else {
      ClaimedLast(v, Claimed(v, was, reqs[0]), reqs[1..], req);
      assert (reqs + [req])[1..] == reqs[1..] + [req];
    }
  }

  lemma NoticedMore(v: Viewer, infos: seq<Info>, info: Info)
    ensures Noticed(v, infos + [info]) == Noticed(v, infos) + Noticed(v, [info])
  {
    forall n ensures n in Noticed(v, infos + [info]) <==> n in Noticed(v, infos) + Noticed(v, [info]) {
      if n in Noticed(v, infos) {
        var x :| x in infos && Notices(v, x) && x.id == n;
        assert x in infos + [info];
      }
      if n in Noticed(v, [info]) {
        assert info in infos + [info] && info in [info];
      }
    }
  }

  lemma NoticedOthers(v: Viewer, infos: seq<Info>, n: int)
    ensures Noticed(v, Others(infos, n)) == Noticed(v, infos) - {n}
  {
    forall x ensures x in Others(infos, n) <==> x in infos && x.id != n { OthersMeaning(infos, n, x); }
  }

  // Part 3: What a message does to the nodes that a process knows.

  /** The entries of a message that the node notices, one per node; a node listed twice gets both service lists. */
  function Gathered(v: Viewer, infos: seq<Info>): (g: map<int, Info>)
    ensures forall n :: n in g ==> g[n].id == n && g[n].publics != [] && n != v.local && !g[n].hidden
  {
    if infos == [] then map[]
    else
      var g, x := Gathered(v, infos[..|infos| - 1]), infos[|infos| - 1];
      if !Notices(v, x) then g
      else if x.id in g then g[x.id := g[x.id].(publics := g[x.id].publics + x.publics)]
      else g[x.id := Info(x.id, x.addr, x.publics, false)]
  }

  lemma {:induction false} GatheredIsNoticed(v: Viewer, infos: seq<Info>)
    ensures Gathered(v, infos).Keys == Noticed(v, infos)
  {
    if infos != [] {
      var front, x := infos[..|infos| - 1], infos[|infos| - 1];
      GatheredIsNoticed(v, front);
      assert infos == front + [x];
      NoticedMore(v, front, x);
      assert Noticed(v, [x]) == if Notices(v, x) then {x.id} else {} by { assert x in [x]; }
    } else {
      assert Noticed(v, infos) == {};
    }
  }

  /** The services of a node that are among the `interests`, once for every interest that names them. */
  function Wanted(publics: seq<Service>, interests: seq<Service>): (r: seq<Service>) {
    if interests == [] then publics else Picked(publics, interests, |publics|)
  }

  function Picked(publics: seq<Service>, interests: seq<Service>, k: nat): (r: seq<Service>)
    requires k <= |publics|
  {
    if k == 0 then []
    else Picked(publics, interests, k - 1) + Copies(publics[k - 1], interests, |interests|)
  }

  function Copies(s: Service, interests: seq<Service>, k: nat): (out: seq<Service>)
    requires k <= |interests|
    ensures forall t :: t in out ==> t == s
    ensures out != [] <==> s in interests[..k]
  {
    if k == 0 then []
    else
      assert interests[..k] == interests[..k - 1] + [interests[k - 1]];
      Copies(s, interests, k - 1) + if interests[k - 1] == s then [s] else []
  }

  lemma AllCopies(s: Service, interests: seq<Service>, t: Service)
    ensures t in Copies(s, interests, |interests|) <==> t == s && s in interests
  {
    assert interests[..|interests|] == interests;
    var copies := Copies(s, interests, |interests|);
    if copies != [] { assert copies[0] in copies; }
  }

  /** What is left of a service list are exactly its services among the interests. */
  lemma {:induction false} PickedMeaning(publics: seq<Service>, interests: seq<Service>, k: nat, s: Service)
    requires k <= |publics|
    ensures s in Picked(publics, interests, k) <==> s in publics[..k] && s in interests
  {
    hide Copies;
    if k > 0 {
      PickedMeaning(publics, interests, k - 1, s);
      assert publics[..k] == publics[..k - 1] + [publics[k - 1]];
      AllCopies(publics[k - 1], interests, s);
    }
  }

  function NodeOf(x: Info, interests: seq<Service>): (r: Node) {
    Node(x.id, x.addr, Wanted(x.publics, interests), Wanted(x.publics, interests), Normal)
  }

  /** The nodes that are set because of the gathered entries: those with a service left after filtering. */
  function Fresh(g: map<int, Info>, interests: seq<Service>): (r: map<int, Node>) {
    map n | n in g && Wanted(g[n].publics, interests) != [] :: NodeOf(g[n], interests)
  }

  type Claims = map<int, set<int>>

  function ClaimsFrom(claims: Claims, master: int): (r: set<int>) {
    if master in claims then claims[master] else {}
  }

  predicate ClaimedBySome(claims: Claims, n: int) {
    exists m :: m in claims && n in claims[m]
  }

  /** The claims after the deletions of a message. */
  function ClaimsLeft(v: Viewer, claims: Claims, req: Req): (r: Claims) {
    if req.master in claims then claims[req.master := claims[req.master] - Dropped(v, claims[req.master], req)]
    else claims
  }

  function ClaimsAfter(v: Viewer, claims: Claims, req: Req): (r: Claims) {
    if req.master in claims || Noticed(v, req.infos) != {}
    then claims[req.master := Claimed(v, ClaimsFrom(claims, req.master), req)]
    else claims
  }

  /** A node that may be deleted when nobody claims it: neither master nor local, and not connected. */
  predicate Removable(local: int, masters: seq<Node>, nodes: map<int, Node>, up: set<int>, n: int) {
    n != 0 && !IsMaster(masters, n) && n != local && n in nodes && n !in up
  }

  /** The nodes a message deletes from the process: dropped, claimed by no master any more, and removable. */
  function Deleted(v: Viewer, masters: seq<Node>, claims: Claims, nodes: map<int, Node>, up: set<int>, req: Req)
    : (r: set<int>)
  {
    set n | n in Dropped(v, ClaimsFrom(claims, req.master), req)
            && !ClaimedBySome(ClaimsLeft(v, claims, req), n) && Removable(v.local, masters, nodes, up, n)
  }

  function NodesAfter(v: Viewer, masters: seq<Node>, interests: seq<Service>, claims: Claims, nodes: map<int, Node>,
                      up: set<int>, req: Req): (r: map<int, Node>)
  {
    nodes - Deleted(v, masters, claims, nodes, up, req) + Fresh(Gathered(v, req.infos), interests)
  }

  /** The first `k` configured masters, without the local node, are set; the last one of an id wins. */
  function MastersSet(local: int, masters: seq<Node>, nodes: map<int, Node>, k: nat): (r: map<int, Node>)
    requires k <= |masters|
  {
    if k == 0 then nodes
    else if masters[k - 1].id == local then MastersSet(local, masters, nodes, k - 1)
    else MastersSet(local, masters, nodes, k - 1)[masters[k - 1].id := masters[k - 1]]
  }

  /** None of the first `k` masters after the one at `j` has its id. */
  ghost predicate LastOf(masters: seq<Node>, j: nat, k: nat)
    requires j < k <= |masters|
  {
    forall i :: j < i < k ==> masters[i].id != masters[j].id
  }

  /** Each configured master but the local node is known as it was last configured. */
  lemma {:induction false} MastersSetLast(local: int, masters: seq<Node>, nodes: map<int, Node>, j: nat, k: nat)
    requires j < k <= |masters| && masters[j].id != local
    ensures masters[j].id in MastersSet(local, masters, nodes, k)
    ensures LastOf(masters, j, k) ==> MastersSet(local, masters, nodes, k)[masters[j].id] == masters[j]
  {
    if j < k - 1 { MastersSetLast(local, masters, nodes, j, k - 1); }
  }

  /** Nothing else changes. */
  lemma {:induction false} MastersSetOthers(local: int, masters: seq<Node>, nodes: map<int, Node>, k: nat, n: int)
    requires k <= |masters| && (n == local || forall j :: 0 <= j < k ==> masters[j].id != n)
    ensures Lookup(MastersSet(local, masters, nodes, k), n) == Lookup(nodes, n)
  {
    if k > 0 { MastersSetOthers(local, masters, nodes, k - 1, n); }
  }

  /** A message changes the claims of its own master as `Claimed` says, and those of no other master. */
  lemma OtherMastersUntouched(v: Viewer, claims: Claims, req: Req, m: int)
    ensures ClaimsFrom(ClaimsAfter(v, claims, req), m)
         == if m == req.master then Claimed(v, ClaimsFrom(claims, m), req) else ClaimsFrom(claims, m)
  {
    if req.master !in claims && Noticed(v, req.infos) == {} {
      assert Claimed(v, {}, req) == {};
    }
  }

  // Part 4: The same, deletion by deletion and entry by entry.

  /** Some master other than `m` claims the node. */
  predicate ClaimedByOther(claims: Claims, m: int, n: int) {
    exists k :: k in claims && k != m && n in claims[k]
  }

  function GivenUp(claims: Claims, m: int, gone: seq<int>): (r: Claims) {
    if m in claims then claims[m := claims[m] - set n | n in gone] else claims
  }

  function DeletedFor(local: int, masters: seq<Node>, claims: Claims, nodes: map<int, Node>, up: set<int>,
                      m: int, gone: seq<int>): (r: set<int>)
  {
    set n | n in gone && !ClaimedByOther(claims, m, n) && Removable(local, masters, nodes, up, n)
  }

  lemma GivenUpMore(claims: Claims, m: int, gone: seq<int>, n: int)
    ensures m in GivenUp(claims, m, gone) <==> m in claims
    ensures GivenUp(claims, m, gone + [n])
         == if m in claims then GivenUp(claims, m, gone)[m := GivenUp(claims, m, gone)[m] - {n}] else GivenUp(claims, m, gone)
    ensures ClaimedBySome(GivenUp(claims, m, gone + [n]), n) <==> ClaimedByOther(claims, m, n)
  {
    assert n in gone + [n];
    var left := GivenUp(claims, m, gone + [n]);
    if m in claims {
      assert claims[m] - (set k | k in gone + [n]) == claims[m] - (set k | k in gone) - {n};
    }
    if ClaimedByOther(claims, m, n) {
      var k :| k in claims && k != m && n in claims[k];
      assert k in left && n in left[k];
    }
  }

  lemma DeletedForMore(local: int, masters: seq<Node>, claims: Claims, nodes: map<int, Node>, up: set<int>,
                       m: int, gone: seq<int>, n: int)
    ensures DeletedFor(local, masters, claims, nodes, up, m, gone + [n])
         == DeletedFor(local, masters, claims, nodes, up, m, gone)
            + if !ClaimedByOther(claims, m, n) && Removable(local, masters, nodes, up, n) then {n} else {}
  {
  }

  /** Deleting one more node that no other master claims. */
  lemma DeletedInCluster<C>(cls: Cluster<C>, claims: Claims, nodes: map<int, Node>, up: set<int>, m: int, gone: seq<int>,
                            n: int, connected: bool)
    requires Indexed(cls) && !ClaimedByOther(claims, m, n) && (n in cls.clients ==> (connected <==> n in up))
    requires cls.nodes == nodes - DeletedFor(cls.local.id, cls.masters, claims, nodes, up, m, gone)
    ensures WithoutNode(cls, n, false, connected).nodes
         == nodes - DeletedFor(cls.local.id, cls.masters, claims, nodes, up, m, gone + [n])
  {
    hide Indexed, IsMaster, ClaimedByOther;
    ClientsOfNodes(cls, n);
    DeletedForMore(cls.local.id, cls.masters, claims, nodes, up, m, gone, n);
  }

  lemma ClientsOfNodes<C>(cls: Cluster<C>, n: int)
    requires Indexed(cls)
    ensures n in cls.nodes <==> n in cls.clients
  {
    assert n in cls.nodes.Keys <==> n in cls.clients.Keys;
  }

  /** Giving up exactly the dropped nodes is what a message asks for. */
  lemma GivenUpIsLeft(v: Viewer, masters: seq<Node>, claims: Claims, nodes: map<int, Node>, up: set<int>, req: Req,
                       gone: seq<int>)
    requires forall n :: n in gone <==> n in Dropped(v, ClaimsFrom(claims, req.master), req)
    ensures GivenUp(claims, req.master, gone) == ClaimsLeft(v, claims, req)
    ensures DeletedFor(v.local, masters, claims, nodes, up, req.master, gone) == Deleted(v, masters, claims, nodes, up, req)
  {
    var all, dropped := (set n | n in gone), Dropped(v, ClaimsFrom(claims, req.master), req);
    forall n ensures n in all <==> n in dropped { assert n in gone <==> n in dropped; }
    assert all == dropped;
    var left := ClaimsLeft(v, claims, req);
    forall n | n in gone ensures ClaimedBySome(left, n) <==> ClaimedByOther(claims, req.master, n) {
      if ClaimedByOther(claims, req.master, n) {
        var k :| k in claims && k != req.master && n in claims[k];
        assert k in left && n in left[k];
      }
    }
  }

  /** The claims while the gathered entries are being added, those of `done` so far. */
  function ClaimsWith(claims: Claims, m: int, done: set<int>): (r: Claims) {
    if done == {} then claims else claims[m := ClaimsFrom(claims, m) + done]
  }

  lemma ClaimsWithMore(claims: Claims, m: int, done: set<int>, n: int)
    ensures ClaimsWith(claims, m, done)[m := ClaimsFrom(ClaimsWith(claims, m, done), m) + {n}]
         == ClaimsWith(claims, m, done + {n})
  {
    assert n in done + {n};
    assert ClaimsFrom(claims, m) + (done + {n}) == ClaimsFrom(claims, m) + done + {n};
    assert done == {} ==> ClaimsFrom(claims, m) + (done + {n}) == ClaimsFrom(claims, m) + {n};
  }

  lemma ClaimsWithAll(v: Viewer, claims: Claims, req: Req)
    ensures ClaimsWith(ClaimsLeft(v, claims, req), req.master, Noticed(v, req.infos)) == ClaimsAfter(v, claims, req)
  {
    var was, noticed := ClaimsFrom(claims, req.master), Noticed(v, req.infos);
    if req.master in claims {
      assert noticed == {} ==> was - Dropped(v, was, req) + noticed == was - Dropped(v, was, req);
    } else {
      assert was - Dropped(v, was, req) == {};
    }
  }

  lemma FreshMore(g: map<int, Info>, rest: set<int>, n: int, interests: seq<Service>)
    requires n in rest && rest <= g.Keys
    ensures Fresh(g - (rest - {n}), interests)
         == if Wanted(g[n].publics, interests) == [] then Fresh(g - rest, interests)
            else Fresh(g - rest, interests)[n := NodeOf(g[n], interests)]
  {
  }
}
