/** The cluster object of a process (cluster/cluster.go, cluster/loadconfig.go), proved against ClusterSpec. */
module Clusters {
  import opened Collections
  import opened ClusterSpec

  /** A connection to a node; whether it is up changes from outside. */
  class RpcClient {
    const nodeId: int
    var connected: bool
    var closed: bool

    constructor (nodeId: int)
      ensures this.nodeId == nodeId && !connected && !closed
    {
      this.nodeId := nodeId;
      connected, closed := false, false;
    }

    method Close()
      modifies this
      ensures closed && !connected
    {
      closed, connected := true, false;
    }
  }

  class Cluster {
    var local: Node
    var masters: seq<Node>
    var mapServiceNode: Index
    var mapIdNode: map<int, Node>
    var mapRpc: map<int, RpcClient>

    ghost function View(): (r: ClusterSpec.Cluster<RpcClient>)
      reads this
    {
      ClusterSpec.Cluster(local, masters, mapServiceNode, mapIdNode, mapRpc)
    }

    /** Every client is filed under the node it talks to. */
    ghost predicate Valid()
      reads this
    {
      forall n :: n in mapRpc ==> mapRpc[n].nodeId == n
    }

    constructor (local: Node, masters: seq<Node>)
      ensures Valid() && local.id in mapRpc && fresh(mapRpc[local.id])
      ensures View() == Started(local, masters, mapRpc[local.id]) && Begun(local, masters, View())
    {
      this.local, this.masters := local, masters;
      mapIdNode := map[local.id := local];
      mapServiceNode := map[];
      mapRpc := map[];
      new;
      var i := 0;
      while i < |local.services|
        invariant 0 <= i <= |local.services|
        invariant mapServiceNode == ListedAll(map[], local.services, i, local.id)
        invariant this.local == local && this.masters == masters
        invariant mapIdNode == map[local.id := local] && mapRpc == map[]
      {
        AddServiceNode(local.services[i], local.id);
        i := i + 1;
      }
      var client := new RpcClient(local.id);
      mapRpc := mapRpc[local.id := client];
      StartedMeaning(local, masters, client);
    }

    method AddServiceNode(s: Service, n: int)
      modifies this`mapServiceNode
      ensures mapServiceNode == Listed(old(mapServiceNode), s, n)
    {
      if s !in mapServiceNode {
        mapServiceNode := mapServiceNode[s := {}];
      }
      mapServiceNode := mapServiceNode[s := mapServiceNode[s] + {n}];
    }

    method DelServiceNode(s: Service, n: int)
      modifies this`mapServiceNode
      ensures mapServiceNode == Unlisted(old(mapServiceNode), s, n, local.id)
      ensures forall t, m :: Offers(mapServiceNode, t, m) <==>
                Offers(old(mapServiceNode), t, m) && !(t == s && m == n && n != local.id)
      ensures n != local.id && s in mapServiceNode ==> mapServiceNode[s] != {}
    {
      forall t, m { UnlistedMeaning(mapServiceNode, s, n, local.id, t, m); }
      if n == local.id {
        return;
      }
      var nodes := if s in mapServiceNode then mapServiceNode[s] else {};
      nodes := nodes - {n};
      if s in mapServiceNode {
        mapServiceNode := mapServiceNode[s := nodes];
      }
      if |nodes| == 0 {
        mapServiceNode := mapServiceNode - {s};
      }
    }

    method GetMasterDiscoveryNodeInfo(n: int) returns (at: Option<nat>)
      ensures at.Some? <==> IsMaster(masters, n)
      ensures at.Some? ==> at.value < |masters| && masters[at.value].id == n
    {
      var i := 0;
      while i < |masters|
        invariant 0 <= i <= |masters|
        invariant forall j :: 0 <= j < i ==> masters[j].id != n
      {
        if masters[i].id == n {
          return Some(i);
        }
        i := i + 1;
      }
      return None;
    }

    method DelServices(ss: seq<Service>, n: int)
      modifies this`mapServiceNode
      ensures mapServiceNode == UnlistedAll(old(mapServiceNode), ss, |ss|, n, local.id)
    {
      var i := 0;
      while i < |ss|
        invariant 0 <= i <= |ss|
        invariant mapServiceNode == UnlistedAll(old(mapServiceNode), ss, i, n, local.id)
      {
        DelServiceNode(ss[i], n);
        i := i + 1;
      }
    }

    /** `serviceDiscoveryDelNodeInfo`. A connected node that is not to be deleted at once is only marked as
        discarded, and the mark goes to a copy that is thrown away. */
    method DelNodeInfo(n: int, immediately: bool)
      requires Valid()
      modifies this`mapServiceNode, this`mapIdNode, this`mapRpc, if n in mapRpc then {mapRpc[n]} else {}
      ensures Valid()
      ensures var connected := n in old(mapRpc) && old(mapRpc[n].connected);
              && View() == WithoutNode(old(View()), n, immediately, connected)
              && (n in old(mapRpc) && Deletes(old(View()), n, immediately, connected) ==> old(mapRpc)[n].closed)
              && (n in old(mapRpc) && !Deletes(old(View()), n, immediately, connected) ==>
                    old(mapRpc)[n].connected == old(mapRpc[n].connected)
                    && old(mapRpc)[n].closed == old(mapRpc[n].closed))
      ensures if n != 0 && !(exists j :: 0 <= j < |masters| && masters[j].id == n) && n != local.id
                 && n in old(mapIdNode) && (immediately || n !in old(mapRpc) || !old(mapRpc[n].connected))
              then NodeGone(old(View()), n, View()) && (n in old(mapRpc) ==> old(mapRpc)[n].closed)
              else View() == old(View())
    {
      WithoutNodeMeaning(View(), n, immediately, n in mapRpc && mapRpc[n].connected);
      hide NodeGone;
      if n == 0 {
        return;
      }
      var master := GetMasterDiscoveryNodeInfo(n);
      if master.Some? || n == local.id {
        return;
      }
      if n !in mapIdNode {
        return;
      }
      var node := mapIdNode[n];
      var ok := n in mapRpc;
      if !immediately && ok {
        if mapRpc[n].connected {
          node := node.(status := Discard);
          return;
        }
      }
      DelServices(node.services, n);
      mapIdNode := mapIdNode - {n};
      if ok {
        mapRpc[n].Close();
      }
      mapRpc := mapRpc - {n};
    }

    /** `serviceDiscoverySetNodeInfo`. */
    method SetNodeInfo(node: Node)
      requires Valid()
      modifies this`mapServiceNode, this`mapIdNode, this`mapRpc
      ensures Valid()
      ensures if node.id == local.id then View() == old(View())
              else node.id in mapRpc && View() == WithNode(old(View()), node, mapRpc[node.id])
      ensures node.id != local.id && node.id !in old(mapRpc) ==> fresh(mapRpc[node.id])
      ensures if node.id == local.id then View() == old(View()) else NodeSet(old(View()), node, View())
    {
      hide NodeSet;
      if node.id == local.id {
        return;
      }
      if node.id in mapIdNode {
        DelServices(mapIdNode[node.id].services, node.id);
      }
      ghost var cleaned := mapServiceNode;
      var seen: set<Service> := {};
      var i := 0;
      while i < |node.publics|
        invariant 0 <= i <= |node.publics|
        invariant mapServiceNode == ListedAll(cleaned, node.publics, i, node.id)
        invariant mapRpc == old(mapRpc) && mapIdNode == old(mapIdNode)
        invariant forall s :: s in seen ==> Offers(mapServiceNode, s, node.id)
      {
        var s := node.publics[i];
        if s !in seen {
          seen := seen + {s};
          AddServiceNode(s, node.id);
        } else {
          ListedTwice(mapServiceNode, s, node.id);
        }
        i := i + 1;
      }
      mapIdNode := mapIdNode[node.id := node];
      if node.id in mapRpc {
        WithNodeMeaning(old(View()), node, mapRpc[node.id]);
        return;
      }
      var client := new RpcClient(node.id);
      mapRpc := mapRpc[node.id := client];
      WithNodeMeaning(old(View()), node, client);
    }

    lemma ListedTwice(ix: Index, s: Service, n: int)
      requires Offers(ix, s, n)
      ensures Listed(ix, s, n) == ix
    {
      assert ix[s] + {n} == ix[s];
    }

    method AppendService(s: Service, isPublic: bool)
      modifies this`local, this`mapServiceNode
      ensures View() == WithLocalService(old(View()), s, isPublic) && ServiceAdded(old(View()), s, isPublic, View())
    {
      WithLocalServiceMeaning(View(), s, isPublic);
      hide ServiceAdded;
      local := local.(services := local.services + [s]);
      if isPublic {
        local := local.(publics := local.publics + [s]);
      }
      AddServiceNode(s, local.id);
    }

    /** `DiscardNode`. */
    method DiscardNode(n: int)
      requires Valid()
      modifies this`mapServiceNode, this`mapIdNode, this`mapRpc, if n in mapRpc then {mapRpc[n]} else {}
      ensures Valid()
      ensures View() == if n in old(mapIdNode) && old(mapIdNode)[n].status == Discard
                        then WithoutNode(old(View()), n, true, n in old(mapRpc) && old(mapRpc[n].connected))
                        else old(View())
    {
      if n in mapIdNode && mapIdNode[n].status == Discard {
        DelNodeInfo(n, true);
      }
    }

    /** The nodes a request for a service may go to. */
    ghost function Candidates(s: Service, all: bool): (r: set<int>)
      reads this, mapRpc.Values
    {
      set n | n in mapRpc && Offers(mapServiceNode, s, n) && (all || mapRpc[n].connected)
    }

    /** Pairwise different clients, each filed for one of the nodes `ids`. */
    ghost predicate Serve(clients: seq<RpcClient?>, ids: set<int>)
      reads this
    {
      && (forall c :: c in clients ==> c != null && c.nodeId in ids && c.nodeId in mapRpc && mapRpc[c.nodeId] == c)
      && (forall i, j :: 0 <= i < j < |clients| ==> clients[i] != clients[j])
    }

    /** The clients handed out are of nodes listed for the service, and connected unless all are asked for. */
    ghost predicate Fit(clients: seq<RpcClient?>, s: Service, all: bool)
      reads this, mapRpc.Values
    {
      forall c :: c in clients ==>
        && c != null && s in mapServiceNode && c.nodeId in mapServiceNode[s]
        && c.nodeId in mapRpc && mapRpc[c.nodeId] == c && (all || c.connected)
    }

    /** No such client is left out. */
    ghost predicate Complete(clients: seq<RpcClient?>, s: Service, all: bool)
      reads this, mapRpc.Values
    {
      forall n :: s in mapServiceNode && n in mapServiceNode[s] && n in mapRpc && (all || mapRpc[n].connected) ==>
        mapRpc[n] in clients
    }

    /** The clients of the nodes `ids` are handed out. */
    ghost predicate Among(clients: seq<RpcClient?>, ids: set<int>)
      reads this
    {
      forall n :: n in ids ==> n in mapRpc && mapRpc[n] in clients
    }

    lemma ServedFit(clients: seq<RpcClient?>, s: Service, all: bool)
      requires Serve(clients, Candidates(s, all))
      ensures Fit(clients, s, all)
      ensures Among(clients, Candidates(s, all)) ==> Complete(clients, s, all)
    {
    }

    lemma OneMoreServes(before: seq<RpcClient?>, ids: set<int>, n: int)
      requires Valid() && n in mapRpc && n !in ids && Serve(before, ids)
      ensures Serve(before + [mapRpc[n]], ids + {n})
      ensures Among(before, ids) ==> Among(before + [mapRpc[n]], ids + {n})
    {
      assert mapRpc[n] !in before;
    }

    lemma NoneServe(ids: set<int>)
      ensures Serve([], ids) && Among([], {})
    {
    }

    lemma ServeMore(clients: seq<RpcClient?>, ids: set<int>, more: set<int>)
      requires ids <= more && Serve(clients, ids)
      ensures Serve(clients, more)
    {
    }

    /** One more client is handed out; the candidates stay what they are. */
    method Enlist(clients: array<RpcClient?>, count: nat, n: int, ghost picked: set<int>, ghost s: Service,
                  ghost all: bool)
      requires Valid() && n in mapRpc && n !in picked && count < clients.Length && Serve(clients[..count], picked)
      modifies clients
      ensures Serve(clients[..count + 1], picked + {n})
      ensures old(Among(clients[..count], picked)) ==> Among(clients[..count + 1], picked + {n})
      ensures Candidates(s, all) == old(Candidates(s, all))
    {
      hide Serve, Valid, Among;
      OneMoreServes(clients[..count], picked, n);
      ghost var before := clients[..count];
      clients[count] := mapRpc[n];
      assert clients[..count + 1] == before + [mapRpc[n]];
    }

    /** `GetNodeIdByService`, on a list with its length and capacity: as many different clients of nodes listed for the
        service as there are, or as the list is long. It stops at the capacity and not at the length, so it panics
        exactly when there are more clients than the list is long and its capacity is larger, or its length zero. */
    method GetNodeIdByService(s: Service, clients: array<RpcClient?>, capacity: nat, all: bool)
      returns (count: nat, panics: bool)
      requires Valid() && clients.Length <= capacity
      modifies clients
      ensures panics <==>
                |Candidates(s, all)| > clients.Length && (clients.Length < capacity || clients.Length == 0)
      ensures count == if |Candidates(s, all)| < clients.Length then |Candidates(s, all)| else clients.Length
      ensures Serve(clients[..count], Candidates(s, all)) && Fit(clients[..count], s, all)
      ensures count < clients.Length ==> Complete(clients[..count], s, all)
    {
      NoneServe({});
      hide Candidates, Offers, Serve, Valid, Picking, Among, Fit, Complete;
      ghost var wanted, picked := Candidates(s, all), {};
      count, panics := 0, false;
      if s !in mapServiceNode {
        NoCandidates(s, all);
        assert clients[..count] == [];
        ServedFit([], s, all);
        return;
      }
      var rest := mapServiceNode[s];
      CandidatesAreListed(s, all);
      assert clients[..count] == [];
      PickNone(wanted, rest);
      while rest != {}
        invariant wanted == Candidates(s, all) && rest <= mapServiceNode[s] && Picking(wanted, picked, rest, count)
        invariant count <= clients.Length && (count == capacity ==> count == 0) && !panics
        invariant Serve(clients[..count], picked) && Among(clients[..count], picked)
        decreases rest
      {
        ghost var any := OneOf(rest);
        var n :| n in rest;
        CandidateMeaning(s, all, n);
        PickOne(wanted, picked, rest, count, n);
        if n in mapRpc && (all || mapRpc[n].connected) {
          if count >= clients.Length {
            panics := true;
            MoreWanted(wanted, picked, rest, count, n);
            break;
          }
          Enlist(clients, count, n, picked, s, all);
          count, picked, rest := count + 1, picked + {n}, rest - {n};
          if count >= capacity {
            break;
          }
        } else {
          rest := rest - {n};
        }
      }
      HowMany(wanted, picked, rest, count, clients.Length);
      ServeMore(clients[..count], picked, wanted);
      ServedFit(clients[..count], s, all);
    }

    lemma CandidateMeaning(s: Service, all: bool, n: int)
      requires s in mapServiceNode && n in mapServiceNode[s]
      ensures n in Candidates(s, all) <==> n in mapRpc && (all || mapRpc[n].connected)
    {
    }

    lemma CandidatesAreListed(s: Service, all: bool)
      requires s in mapServiceNode
      ensures Candidates(s, all) <= mapServiceNode[s] && Candidates(s, all) <= mapRpc.Keys
    {
    }

    lemma NoCandidates(s: Service, all: bool)
      requires s !in mapServiceNode
      ensures Candidates(s, all) == {}
    {
    }
  }

  /** What is wanted is picked or still to come. */
  ghost predicate Picking(wanted: set<int>, picked: set<int>, rest: set<int>, count: nat) {
    picked <= wanted <= picked + rest && picked !! rest && |picked| == count
  }

  lemma PickNone(wanted: set<int>, rest: set<int>)
    requires wanted <= rest
    ensures Picking(wanted, {}, rest, 0)
  {
  }

  lemma PickOne(wanted: set<int>, picked: set<int>, rest: set<int>, count: nat, n: int)
    requires Picking(wanted, picked, rest, count) && n in rest
    ensures n !in picked
    ensures if n in wanted then Picking(wanted, picked + {n}, rest - {n}, count + 1)
            else Picking(wanted, picked, rest - {n}, count)
  {
  }

  lemma MoreWanted(wanted: set<int>, picked: set<int>, rest: set<int>, count: nat, n: int)
    requires Picking(wanted, picked, rest, count) && n in rest && n in wanted
    ensures |wanted| > count
  {
    assert wanted == picked + {n} + (wanted - picked - {n});
  }

  /** Picking stops when nothing is left or the room is used up. */
  lemma HowMany(wanted: set<int>, picked: set<int>, rest: set<int>, count: nat, room: nat)
    requires Picking(wanted, picked, rest, count) && count <= room && (rest == {} || count == room)
    ensures count == (if |wanted| < room then |wanted| else room) && picked <= wanted
    ensures rest == {} ==> |wanted| == count
    ensures count < room ==> picked == wanted
  {
    assert wanted == picked + (wanted - picked);
    if rest == {} { assert wanted == picked; }
  }

  /** With an index that is right, every node listed for a service can be asked. */
  lemma EveryListedNodeIsCandidate(cls: Cluster, s: Service)
    requires Indexed(cls.View())
    ensures cls.Candidates(s, true) == if s in cls.mapServiceNode then cls.mapServiceNode[s] else {}
  {
    var ix, nodes := cls.mapServiceNode, if s in cls.mapServiceNode then cls.mapServiceNode[s] else {};
    forall n | n in nodes ensures n in cls.mapRpc {
      assert Offers(ix, s, n);
      assert n in cls.mapIdNode.Keys;
    }
  }
}
