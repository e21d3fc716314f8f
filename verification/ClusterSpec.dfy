/** The nodes a process knows and the index from services to nodes (cluster/cluster.go, cluster/loadconfig.go). */
module ClusterSpec {

  type Service = string

  /** `Discard` is only ever written to a copy of a stored node. */
  datatype Status = Normal | Discard

  datatype Node = Node(id: int, addr: string, services: seq<Service>, publics: seq<Service>, status: Status)

  type Index = map<Service, set<int>>

  /** `C` stands for the clients that talk to the nodes. */
  datatype Cluster<C> = Cluster(
    local: Node, masters: seq<Node>, index: Index, nodes: map<int, Node>, clients: map<int, C>)

  /** Node `n` is listed for service `s`. */
  predicate Offers(ix: Index, s: Service, n: int) {
    s in ix && n in ix[s]
  }

  predicate IsMaster(masters: seq<Node>, id: int) {
    exists i :: 0 <= i < |masters| && masters[i].id == id
  }

  /** `delServiceNode`: an emptied set goes away altogether; the local node stays. */
  function Unlisted(ix: Index, s: Service, n: int, local: int): (r: Index) {
    if n == local then ix
    else
      var left := (if s in ix then ix[s] else {}) - {n};
      if left == {} then ix - {s} else ix[s := left]
  }

  function Listed(ix: Index, s: Service, n: int): (r: Index) {
    ix[s := (if s in ix then ix[s] else {}) + {n}]
  }

  /** The first `k` services of a list taken out of the index, one after the other. */
  function UnlistedAll(ix: Index, ss: seq<Service>, k: nat, n: int, local: int): (r: Index)
    requires k <= |ss|
  {
    if k == 0 then ix else Unlisted(UnlistedAll(ix, ss, k - 1, n, local), ss[k - 1], n, local)
  }

  function ListedAll(ix: Index, ss: seq<Service>, k: nat, n: int): (r: Index)
    requires k <= |ss|
  {
    if k == 0 then ix else Listed(ListedAll(ix, ss, k - 1, n), ss[k - 1], n)
  }

  /** `serviceDiscoverySetNodeInfo`; `client` is the client made for a node not yet connected. */
  function WithNode<C>(cls: Cluster<C>, node: Node, client: C): (r: Cluster<C>) {
    var n := node.id;
    if n == cls.local.id then cls
    else
      var cleaned := if n in cls.nodes
                     then UnlistedAll(cls.index, cls.nodes[n].services, |cls.nodes[n].services|, n, cls.local.id)
                     else cls.index;
      cls.(index := ListedAll(cleaned, node.publics, |node.publics|, n), nodes := cls.nodes[n := node],
           clients := if n in cls.clients then cls.clients else cls.clients[n := client])
  }

  /** `serviceDiscoveryDelNodeInfo` really deletes: neither master nor local, and immediately or not connected. */
  predicate Deletes<C>(cls: Cluster<C>, n: int, immediately: bool, connected: bool) {
    && n != 0 && !IsMaster(cls.masters, n) && n != cls.local.id && n in cls.nodes
    && (immediately || n !in cls.clients || !connected)
  }

  function WithoutNode<C>(cls: Cluster<C>, n: int, immediately: bool, connected: bool): (r: Cluster<C>) {
    if !Deletes(cls, n, immediately, connected) then cls
    else
      var ss := cls.nodes[n].services;
      cls.(index := UnlistedAll(cls.index, ss, |ss|, n, cls.local.id), nodes := cls.nodes - {n},
           clients := cls.clients - {n})
  }

  /** `appendService` gives the local node one more service. */
  function WithLocalService<C>(cls: Cluster<C>, s: Service, isPublic: bool): (r: Cluster<C>) {
    var local := cls.local.(services := cls.local.services + [s],
                            publics := if isPublic then cls.local.publics + [s] else cls.local.publics);
    cls.(local := local, index := Listed(cls.index, s, local.id))
  }

  /** `parseLocalCfg` and `initLocalRpcClient` on a new cluster. */
  function Started<C>(local: Node, masters: seq<Node>, client: C): (r: Cluster<C>) {
    Cluster(local, masters, ListedAll(map[], local.services, |local.services|, local.id),
            map[local.id := local], map[local.id := client])
  }

  // Part 1: The index agrees with the map it speeds up.

  /** For remote nodes the index lists exactly what the nodes publish, for the local node its own services; no set
      is empty, every known node has a client, and nothing stored is marked as discarded. */
  ghost predicate Indexed<C>(cls: Cluster<C>) {
    && (forall s, n :: n != cls.local.id ==>
          (Offers(cls.index, s, n) <==> n in cls.nodes && s in cls.nodes[n].publics))
    && (forall s :: Offers(cls.index, s, cls.local.id) <==> s in cls.local.services)
    && (forall s :: s in cls.index ==> cls.index[s] != {})
    && cls.nodes.Keys == cls.clients.Keys && cls.local.id in cls.nodes
    && (forall n :: n in cls.nodes && n != cls.local.id ==> Covered(cls.nodes[n]))
    && (forall n :: n in cls.nodes ==> cls.nodes[n].status == Normal && cls.nodes[n].id == n)
  }

  /** Everything a node publishes is in its service list. */
  ghost predicate Covered(node: Node) {
    forall s :: s in node.publics ==> s in node.services
  }

  ghost predicate NoneEmpty(ix: Index) {
    forall s :: s in ix ==> ix[s] != {}
  }

  lemma UnlistedMeaning(ix: Index, s0: Service, n: int, local: int, s: Service, m: int)
    ensures Offers(Unlisted(ix, s0, n, local), s, m) <==> Offers(ix, s, m) && !(s == s0 && m == n && n != local)
  {
    if s == s0 && n != local {
      var left := (if s in ix then ix[s] else {}) - {n};
      assert m in left <==> Offers(ix, s, m) && m != n;
    }
  }

  lemma {:induction false} UnlistedAllMeaning(ix: Index, ss: seq<Service>, k: nat, n: int, local: int, s: Service, m: int)
    requires k <= |ss|
    ensures Offers(UnlistedAll(ix, ss, k, n, local), s, m)
       <==> Offers(ix, s, m) && !(m == n && n != local && s in ss[..k])
    ensures NoneEmpty(ix) ==> NoneEmpty(UnlistedAll(ix, ss, k, n, local))
  {
    if k > 0 {
      UnlistedAllMeaning(ix, ss, k - 1, n, local, s, m);
      UnlistedMeaning(UnlistedAll(ix, ss, k - 1, n, local), ss[k - 1], n, local, s, m);
      assert ss[..k] == ss[..k - 1] + [ss[k - 1]];
    }
  }

  lemma {:induction false} ListedAllMeaning(ix: Index, ss: seq<Service>, k: nat, n: int, s: Service, m: int)
    requires k <= |ss|
    ensures Offers(ListedAll(ix, ss, k, n), s, m) <==> Offers(ix, s, m) || (m == n && s in ss[..k])
    ensures NoneEmpty(ix) ==> NoneEmpty(ListedAll(ix, ss, k, n))
  {
    if k > 0 {
      ListedAllMeaning(ix, ss, k - 1, n, s, m);
      assert Offers(ListedAll(ix, ss, k, n), ss[k - 1], n);
      assert ss[..k] == ss[..k - 1] + [ss[k - 1]];
    }
  }

  lemma StartedIndexed<C>(local: Node, masters: seq<Node>, client: C)
    requires local.status == Normal
    ensures Indexed(Started(local, masters, client))
  {
    forall s, n ensures Offers(Started(local, masters, client).index, s, n) <==> n == local.id && s in local.services {
      ListedAllMeaning(map[], local.services, |local.services|, local.id, s, n);
    }
    ListedAllMeaning(map[], local.services, |local.services|, local.id, "", 0);
  }

  /** What setting a node does to every entry of the index. */
  lemma WithNodeOffers<C>(cls: Cluster<C>, node: Node, client: C, s: Service, n: int)
    requires node.id != cls.local.id
    ensures Offers(WithNode(cls, node, client).index, s, n)
       <==> (n == node.id && s in node.publics)
            || (Offers(cls.index, s, n) && !(n == node.id && n in cls.nodes && s in cls.nodes[n].services))
    ensures NoneEmpty(cls.index) ==> NoneEmpty(WithNode(cls, node, client).index)
  {
    if node.id in cls.nodes {
      var ss := cls.nodes[node.id].services;
      var cleaned := UnlistedAll(cls.index, ss, |ss|, node.id, cls.local.id);
      UnlistedAllMeaning(cls.index, ss, |ss|, node.id, cls.local.id, s, n);
      ListedAllMeaning(cleaned, node.publics, |node.publics|, node.id, s, n);
    } else {
      ListedAllMeaning(cls.index, node.publics, |node.publics|, node.id, s, n);
    }
  }

  lemma SetKeepsIndexed<C>(cls: Cluster<C>, node: Node, client: C)
    requires Indexed(cls) && Covered(node) && node.status == Normal
    ensures Indexed(WithNode(cls, node, client))
  {
    if node.id != cls.local.id {
      var out := WithNode(cls, node, client);
      forall s, n
        ensures Offers(out.index, s, n) <==>
                (n == node.id && s in node.publics)
                || (Offers(cls.index, s, n) && !(n == node.id && n in cls.nodes && s in cls.nodes[n].services))
      {
        WithNodeOffers(cls, node, client, s, n);
      }
      WithNodeOffers(cls, node, client, "", 0);
    }
  }

  lemma DelKeepsIndexed<C>(cls: Cluster<C>, n: int, immediately: bool, connected: bool)
    requires Indexed(cls)
    ensures Indexed(WithoutNode(cls, n, immediately, connected))
  {
    if Deletes(cls, n, immediately, connected) {
      var ss := cls.nodes[n].services;
      forall s, m
        ensures Offers(UnlistedAll(cls.index, ss, |ss|, n, cls.local.id), s, m)
           <==> Offers(cls.index, s, m) && !(m == n && s in ss)
      {
        UnlistedAllMeaning(cls.index, ss, |ss|, n, cls.local.id, s, m);
      }
      UnlistedAllMeaning(cls.index, ss, |ss|, n, cls.local.id, "", 0);
    }
  }

  lemma AppendKeepsIndexed<C>(cls: Cluster<C>, s: Service, isPublic: bool)
    requires Indexed(cls)
    ensures Indexed(WithLocalService(cls, s, isPublic))
  {
    WithLocalServiceMeaning(cls, s, isPublic);
  }

  /** Setting a node and deleting it leaves nothing of it in the index exactly when the node's service list covers
      what it publishes: only listed services are cleaned up. */
  lemma SetThenDelete<C>(cls: Cluster<C>, node: Node, client: C)
    requires Indexed(cls) && node.id !in cls.nodes && node.id != 0 && !IsMaster(cls.masters, node.id)
    ensures var out := WithoutNode(WithNode(cls, node, client), node.id, true, false);
            && node.id !in out.nodes
            && ((forall s :: !Offers(out.index, s, node.id)) <==> Covered(node))
  {
    var mid := WithNode(cls, node, client);
    var out := WithoutNode(mid, node.id, true, false);
    forall s ensures Offers(out.index, s, node.id) <==> s in node.publics && s !in node.services {
      WithNodeOffers(cls, node, client, s, node.id);
      UnlistedAllMeaning(mid.index, node.services, |node.services|, node.id, cls.local.id, s, node.id);
    }
  }

  // Part 2: The changes, entry by entry.

  /** A new process knows the local node only, listed for its services. */
  ghost predicate Begun<C>(local: Node, masters: seq<Node>, out: Cluster<C>) {
    && out.local == local && out.masters == masters && out.nodes == map[local.id := local]
    && out.clients.Keys == {local.id}
    && forall s, n :: Offers(out.index, s, n) <==> n == local.id && s in local.services
  }

  /** The node is stored, listed for what it publishes and, of what it had listed before, for nothing else; it keeps
      its client if it has one. */
  ghost predicate NodeSet<C>(cls: Cluster<C>, node: Node, out: Cluster<C>) {
    && out.local == cls.local && out.masters == cls.masters && out.nodes == cls.nodes[node.id := node]
    && out.clients.Keys == cls.clients.Keys + {node.id}
    && (forall n :: n in cls.clients ==> out.clients[n] == cls.clients[n])
    && forall s, n :: Offers(out.index, s, n) <==>
         if n == node.id && s in node.publics then true
         else Offers(cls.index, s, n) && !(n == node.id && n in cls.nodes && s in cls.nodes[n].services)
  }

  /** The node is known no more, has no client, and is not listed for the services in its list. */
  ghost predicate NodeGone<C>(cls: Cluster<C>, id: int, out: Cluster<C>) {
    && out.local == cls.local && out.masters == cls.masters && out.nodes == cls.nodes - {id}
    && out.clients == cls.clients - {id} && id in cls.nodes
    && forall s, n :: Offers(out.index, s, n) <==>
         Offers(cls.index, s, n) && !(n == id && s in cls.nodes[id].services)
  }

  ghost predicate ServiceAdded<C>(cls: Cluster<C>, s: Service, isPublic: bool, out: Cluster<C>) {
    && out.local.services == cls.local.services + [s]
    && out.local.publics == (if isPublic then cls.local.publics + [s] else cls.local.publics)
    && out.local.id == cls.local.id && out.local.addr == cls.local.addr && out.local.status == cls.local.status
    && out.masters == cls.masters && out.nodes == cls.nodes && out.clients == cls.clients
    && forall t, n :: Offers(out.index, t, n) <==> Offers(cls.index, t, n) || (t == s && n == cls.local.id)
  }

  lemma StartedMeaning<C>(local: Node, masters: seq<Node>, client: C)
    ensures Begun(local, masters, Started(local, masters, client))
  {
    forall s, n ensures Offers(Started(local, masters, client).index, s, n) <==> n == local.id && s in local.services {
      ListedAllMeaning(map[], local.services, |local.services|, local.id, s, n);
      assert local.services[..|local.services|] == local.services;
    }
  }

  lemma WithNodeMeaning<C>(cls: Cluster<C>, node: Node, client: C)
    requires node.id != cls.local.id
    ensures NodeSet(cls, node, WithNode(cls, node, client))
  {
    forall s, n
      ensures Offers(WithNode(cls, node, client).index, s, n) <==>
              (n == node.id && s in node.publics)
              || (Offers(cls.index, s, n) && !(n == node.id && n in cls.nodes && s in cls.nodes[n].services))
    {
      WithNodeOffers(cls, node, client, s, n);
    }
  }

  lemma WithoutNodeMeaning<C>(cls: Cluster<C>, id: int, immediately: bool, connected: bool)
    ensures var out := WithoutNode(cls, id, immediately, connected);
            if id != 0 && !(exists j :: 0 <= j < |cls.masters| && cls.masters[j].id == id) && id != cls.local.id
               && id in cls.nodes && (immediately || id !in cls.clients || !connected)
            then NodeGone(cls, id, out) else out == cls
  {
    if Deletes(cls, id, immediately, connected) {
      var ss := cls.nodes[id].services;
      forall s, n
        ensures Offers(UnlistedAll(cls.index, ss, |ss|, id, cls.local.id), s, n)
           <==> Offers(cls.index, s, n) && !(n == id && s in ss)
      {
        UnlistedAllMeaning(cls.index, ss, |ss|, id, cls.local.id, s, n);
        assert ss[..|ss|] == ss;
      }
    }
  }

  lemma WithLocalServiceMeaning<C>(cls: Cluster<C>, s: Service, isPublic: bool)
    ensures ServiceAdded(cls, s, isPublic, WithLocalService(cls, s, isPublic))
  {
  }

  // Part 3: Every reachable cluster.

  datatype Change<C> =
    | SetNode(node: Node, client: C)
    | DelNode(id: int, immediately: bool, connected: bool)
    | AppendService(name: Service, isPublic: bool)

  function Changed<C>(cls: Cluster<C>, change: Change<C>): (r: Cluster<C>) {
    match change
    case SetNode(node, client) => WithNode(cls, node, client)
    case DelNode(n, immediately, connected) => WithoutNode(cls, n, immediately, connected)
    case AppendService(s, isPublic) => WithLocalService(cls, s, isPublic)
  }

  function ChangedAll<C>(cls: Cluster<C>, changes: seq<Change<C>>): (r: Cluster<C>) {
    if changes == [] then cls else Changed(ChangedAll(cls, changes[..|changes| - 1]), changes[|changes| - 1])
  }

  ghost predicate Sound<C>(change: Change<C>) {
    change.SetNode? ==> Covered(change.node) && change.node.status == Normal
  }

  /** The inverted index is right in every cluster that any changes can lead to. */
  lemma {:induction false} ReachableIndexed<C>(local: Node, masters: seq<Node>, client: C, changes: seq<Change<C>>)
    requires local.status == Normal && forall i :: 0 <= i < |changes| ==> Sound(changes[i])
    ensures Indexed(ChangedAll(Started(local, masters, client), changes))
  {
    if changes == [] {
      StartedIndexed(local, masters, client);
    } else {
      var before := ChangedAll(Started(local, masters, client), changes[..|changes| - 1]);
      ReachableIndexed(local, masters, client, changes[..|changes| - 1]);
      match changes[|changes| - 1]
      case SetNode(node, c) => SetKeepsIndexed(before, node, c);
      case DelNode(n, immediately, connected) => DelKeepsIndexed(before, n, immediately, connected);
      case AppendService(s, isPublic) => AppendKeepsIndexed(before, s, isPublic);
    }
  }
}
