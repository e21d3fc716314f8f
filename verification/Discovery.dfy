/** The two discovery services as objects (cluster/dynamicdiscovery.go), proved against DiscoverySpec. */
module Discoveries {
  import opened Collections
  import opened ClusterSpec
  import opened DiscoverySpec
  import C = Clusters
  import DM = DiscoveryMeaning

  datatype Sent = Sent(node: int, req: Req)

  class DynamicDiscoveryMaster {
    var mapNodeIsReg: map<int, bool>
    var nodeInfo: seq<Info>
    var outbox: seq<Sent>
    const cluster: C.Cluster

    ghost function View(): (r: Registry)
      reads this
    {
      Registry(mapNodeIsReg, nodeInfo)
    }

    constructor (cluster: C.Cluster)
      ensures View() == NOBODY_REGISTERED && outbox == [] && this.cluster == cluster
    {
      this.cluster := cluster;
      mapNodeIsReg, nodeInfo, outbox := map[], [], [];
    }

    method AddNodeInfo(info: Info)
      modifies this`mapNodeIsReg, this`nodeInfo
      ensures View() == old(View()).Add(info)
      ensures if |info.publics| == 0 then nodeInfo == old(nodeInfo) && mapNodeIsReg == old(mapNodeIsReg)
              else nodeInfo == old(nodeInfo) + [info] && mapNodeIsReg == old(mapNodeIsReg)[info.id := true]
    {
      if |info.publics| == 0 {
        return;
      }
      mapNodeIsReg := mapNodeIsReg[info.id := true];
      nodeInfo := nodeInfo + [info];
    }

    method RemoveNodeInfo(n: int)
      modifies this`mapNodeIsReg, this`nodeInfo
      ensures View() == old(View()).Remove(n, cluster.local.id)
      ensures n == 0 || n == cluster.local.id ==> nodeInfo == old(nodeInfo) && mapNodeIsReg == old(mapNodeIsReg)
      ensures n != 0 && n != cluster.local.id ==>
                && mapNodeIsReg == old(mapNodeIsReg)[n := false]
                && OnlyOthers(nodeInfo, old(nodeInfo), n)
    {
      hide Others, OnlyOthers;
      if n == 0 || n == cluster.local.id {
        return;
      }
      mapNodeIsReg := mapNodeIsReg[n := false];
      ghost var was, done := nodeInfo, 0;
      assert was[..0] == [] && was[0..] == was;
      NoOthers(n);
      var pos := 0;
      while pos < |nodeInfo|
        invariant 0 <= done <= |was| && pos == |Others(was[..done], n)|
        invariant nodeInfo == Others(was[..done], n) + was[done..]
        invariant mapNodeIsReg == old(mapNodeIsReg)[n := false]
        decreases |was| - done
      {
        OneMoreSeen(was, done, n);
        if nodeInfo[pos].id == n {
          nodeInfo := nodeInfo[..pos] + nodeInfo[pos + 1..];
          pos := pos - 1;
        }
        pos, done := pos + 1, done + 1;
      }
      assert was[..done] == was && nodeInfo == Others(was, n);
      OthersAreOnly(was, n);
    }

    /** Every entry of another node as often as before, and none of the node. */
    ghost predicate OnlyOthers(now: seq<Info>, was: seq<Info>, n: int) {
      forall x :: multiset(now)[x] == if x.id == n then 0 else multiset(was)[x]
    }

    lemma OthersAreOnly(was: seq<Info>, n: int)
      ensures OnlyOthers(Others(was, n), was, n)
    {
      forall x ensures multiset(Others(was, n))[x] == if x.id == n then 0 else multiset(was)[x] {
        OthersCount(was, n, x);
      }
    }

    lemma NoOthers(n: int)
      ensures Others([], n) == []
    {
    }

    /** One step of the removal loop: the entry at the position goes or is passed. */
    lemma OneMoreSeen(was: seq<Info>, k: nat, n: int)
      requires k < |was|
      ensures var front, next := Others(was[..k], n), Others(was[..k + 1], n);
              var now := front + was[k..];
              && now[|front|] == was[k]
              && (was[k].id == n ==> |next| == |front| && now[..|front|] + now[|front| + 1..] == next + was[k + 1..])
              && (was[k].id != n ==> |next| == |front| + 1 && now == next + was[k + 1..])
    {
      assert was[..k + 1][..k] == was[..k];
    }

    method IsRegNode(n: int) returns (isReg: bool)
      ensures isReg == View().IsReg(n)
    {
      isReg := n in mapNodeIsReg && mapNodeIsReg[n];
    }

    method GoNode(n: int, req: Req)
      modifies this`outbox
      ensures outbox == old(outbox) + [Sent(n, req)]
    {
      outbox := outbox + [Sent(n, req)];
    }

    /** The message goes to every registered node once, in any order. */
    ghost predicate BroadcastTo(sent: seq<Sent>, req: Req, nodes: set<int>) {
      && (forall x :: x in sent ==> x.req == req && x.node in nodes)
      && (forall n :: n in nodes ==> Sent(n, req) in sent)
      && |sent| == |nodes|
    }

    ghost function Registered(): (r: set<int>)
      reads this`mapNodeIsReg
    {
      set n | n in mapNodeIsReg && mapNodeIsReg[n]
    }

    method RpcBroadCastGo(req: Req) returns (ghost sent: seq<Sent>)
      modifies this`outbox
      ensures outbox == old(outbox) + sent && BroadcastTo(sent, req, Registered())
    {
      hide BroadcastTo, Registered;
      NoneSent(req);
      sent := [];
      var rest := mapNodeIsReg.Keys;
      ghost var done, all := {}, Registered();
      RegisteredAreKeys();
      while rest != {}
        invariant rest <= mapNodeIsReg.Keys && done <= all <= done + rest && done !! rest && all == Registered()
        invariant outbox == old(outbox) + sent && BroadcastTo(sent, req, done)
        decreases rest
      {
        ghost var any := OneOf(rest);
        var n :| n in rest;
        rest := rest - {n};
        IsRegistered(n);
        if mapNodeIsReg[n] {
          OneMoreSent(sent, req, done, n);
          assert old(outbox) + sent + [Sent(n, req)] == old(outbox) + (sent + [Sent(n, req)]);
          GoNode(n, req);
          sent, done := sent + [Sent(n, req)], done + {n};
        }
      }
      assert done == all;
    }

    lemma RegisteredAreKeys()
      ensures Registered() <= mapNodeIsReg.Keys
    {
    }

    lemma IsRegistered(n: int)
      ensures n in Registered() <==> n in mapNodeIsReg && mapNodeIsReg[n]
    {
    }

    lemma NoneSent(req: Req)
      ensures BroadcastTo([], req, {})
    {
    }

    lemma OneMoreSent(sent: seq<Sent>, req: Req, nodes: set<int>, n: int)
      requires BroadcastTo(sent, req, nodes) && n !in nodes
      ensures BroadcastTo(sent + [Sent(n, req)], req, nodes + {n})
    {
    }

    method OnNodeConnected(n: int)
      modifies this`outbox
      ensures outbox == old(outbox) + if View().IsReg(n) then [Sent(n, Req(cluster.local.id, true, nodeInfo, 0))] else []
    {
      var isReg := IsRegNode(n);
      if !isReg {
        return;
      }
      GoNode(n, Req(cluster.local.id, true, nodeInfo, 0));
    }

    method OnNodeDisconnect(n: int) returns (ghost sent: seq<Sent>)
      requires cluster.Valid()
      modifies this, cluster`mapServiceNode, cluster`mapIdNode, cluster`mapRpc
      modifies if n in cluster.mapRpc then {cluster.mapRpc[n]} else {}
      ensures cluster.Valid() && outbox == old(outbox) + sent
      ensures !old(View().IsReg(n)) ==>
                sent == [] && View() == old(View()) && cluster.View() == old(cluster.View())
      ensures old(View().IsReg(n)) ==>
                && BroadcastTo(sent, Req(cluster.local.id, false, [], n), old(Registered()))
                && View() == old(View()).Remove(n, cluster.local.id)
                && cluster.View() == WithoutNode(old(cluster.View()), n, true,
                                                 n in old(cluster.mapRpc) && old(cluster.mapRpc[n].connected))
    {
      sent := [];
      var isReg := IsRegNode(n);
      if !isReg {
        return;
      }
      sent := RpcBroadCastGo(Req(cluster.local.id, false, [], n));
      RemoveNodeInfo(n);
      cluster.DelNodeInfo(n, true);
    }

    /** A request without a node is refused. */
    method RegServiceDiscover(req: Option<Info>) returns (ok: bool, ghost sent: seq<Sent>)
      requires cluster.Valid()
      modifies this, cluster`mapServiceNode, cluster`mapIdNode, cluster`mapRpc
      modifies if req.Some? && req.value.id in cluster.mapRpc then {cluster.mapRpc[req.value.id]} else {}
      ensures cluster.Valid() && outbox == old(outbox) + sent && ok == req.Some?
      ensures !ok ==> sent == [] && View() == old(View()) && cluster.View() == old(cluster.View())
      ensures ok ==>
                var info := req.value;
                var gone := WithoutNode(old(cluster.View()), info.id, true,
                                        info.id in old(cluster.mapRpc) && old(cluster.mapRpc[info.id].connected));
                && BroadcastTo(sent, Req(cluster.local.id, false, [info], 0), old(Registered()))
                && View() == old(View()).Add(info)
                && if info.id == cluster.local.id then cluster.View() == gone
                   else
                     && info.id in cluster.mapRpc
                     && cluster.View() == WithNode(gone, NodeOf(info, []), cluster.mapRpc[info.id])
                     && (info.id !in gone.clients ==> fresh(cluster.mapRpc[info.id]))
      ensures ok && req.value.id != cluster.local.id ==>
                && req.value.id in cluster.mapIdNode
                && var node := cluster.mapIdNode[req.value.id];
                   && node.id == req.value.id && node.addr == req.value.addr && node.status == Normal
                   && node.publics == req.value.publics && node.services == req.value.publics
      ensures ok && |req.value.publics| > 0 ==>
                && nodeInfo == old(nodeInfo) + [req.value]
                && mapNodeIsReg == old(mapNodeIsReg)[req.value.id := true]
      ensures ok && |req.value.publics| == 0 ==> nodeInfo == old(nodeInfo) && mapNodeIsReg == old(mapNodeIsReg)
    {
      sent := [];
      if req == None {
        return false, sent;
      }
      ok := true;
      sent := Register(req.value);
    }

    /** A registration is broadcast before it is stored; then the node is deleted, closing its old connection, and
        set again. */
    method Register(info: Info) returns (ghost sent: seq<Sent>)
      requires cluster.Valid()
      modifies this, cluster`mapServiceNode, cluster`mapIdNode, cluster`mapRpc
      modifies if info.id in cluster.mapRpc then {cluster.mapRpc[info.id]} else {}
      ensures cluster.Valid() && outbox == old(outbox) + sent
      ensures BroadcastTo(sent, Req(cluster.local.id, false, [info], 0), old(Registered()))
      ensures View() == old(View()).Add(info)
      ensures var gone := WithoutNode(old(cluster.View()), info.id, true,
                                      info.id in old(cluster.mapRpc) && old(cluster.mapRpc[info.id].connected));
              if info.id == cluster.local.id then cluster.View() == gone
              else
                && info.id in cluster.mapRpc
                && cluster.View() == WithNode(gone, NodeOf(info, []), cluster.mapRpc[info.id])
                && (info.id !in gone.clients ==> fresh(cluster.mapRpc[info.id]))
    {
      sent := RpcBroadCastGo(Req(cluster.local.id, false, [info], 0));
      AddNodeInfo(info);
      cluster.DelNodeInfo(info.id, true);
      cluster.SetNodeInfo(NodeOf(info, []));
    }
  }

  class DynamicDiscoveryClient {
    var mapDiscovery: Claims
    const cluster: C.Cluster
    const interests: seq<Service>

    constructor (cluster: C.Cluster, interests: seq<Service>)
      ensures mapDiscovery == map[] && this.cluster == cluster && this.interests == interests
    {
      this.cluster, this.interests, mapDiscovery := cluster, interests, map[];
    }

    method AddMasterNode(m: int, n: int)
      modifies this`mapDiscovery
      ensures mapDiscovery == old(mapDiscovery)[m := ClaimsFrom(old(mapDiscovery), m) + {n}]
    {
      if m !in mapDiscovery {
        mapDiscovery := mapDiscovery[m := {}];
      }
      mapDiscovery := mapDiscovery[m := mapDiscovery[m] + {n}];
    }

    method RemoveMasterNode(m: int, n: int)
      modifies this`mapDiscovery
      ensures mapDiscovery == if m in old(mapDiscovery) then old(mapDiscovery)[m := old(mapDiscovery)[m] - {n}]
                              else old(mapDiscovery)
    {
      if m in mapDiscovery {
        mapDiscovery := mapDiscovery[m := mapDiscovery[m] - {n}];
      }
    }

    method FindNodeId(n: int) returns (found: bool)
      ensures found <==> ClaimedBySome(mapDiscovery, n)
    {
      var rest := mapDiscovery.Keys;
      while rest != {}
        invariant rest <= mapDiscovery.Keys
        invariant forall m :: m in mapDiscovery && m !in rest ==> n !in mapDiscovery[m]
        decreases rest
      {
        ghost var any := OneOf(rest);
        var m :| m in rest;
        if n in mapDiscovery[m] {
          return true;
        }
        rest := rest - {m};
      }
      return false;
    }

    /** The entries that the node notices, service by service. */
    method Gather(infos: seq<Info>) returns (g: map<int, Info>)
      ensures g == Gathered(Viewer(cluster.local.id, IsMaster(cluster.masters, cluster.local.id)), infos)
    {
      g := map[];
      var me := cluster.GetMasterDiscoveryNodeInfo(cluster.local.id);
      ghost var v := Viewer(cluster.local.id, IsMaster(cluster.masters, cluster.local.id));
      var i := 0;
      while i < |infos|
        invariant 0 <= i <= |infos| && g == Gathered(v, infos[..i])
      {
        var x := infos[i];
        assert infos[..i + 1][..i] == infos[..i];
        if x.id != cluster.local.id && !(me.None? && |x.publics| == 1 && x.publics[0] == DISCOVERY_CLIENT) {
          assert me.None? && x.publics == [DISCOVERY_CLIENT] ==> |x.publics| == 1;
          g := GatherServices(g, x);
        }
        i := i + 1;
      }
      assert infos[..i] == infos;
    }

    /** One entry: every service is appended to what is already gathered for the node. */
    method GatherServices(before: map<int, Info>, x: Info) returns (g: map<int, Info>)
      requires x.id in before ==> before[x.id].publics != []
      ensures g == if x.publics == [] then before
                   else if x.id in before then before[x.id := before[x.id].(publics := before[x.id].publics + x.publics)]
                   else before[x.id := Info(x.id, x.addr, x.publics, false)]
    {
      g := before;
      var j := 0;
      assert x.publics[..0] == [];
      while j < |x.publics|
        invariant 0 <= j <= |x.publics|
        invariant g == if j == 0 then before
                       else if x.id in before
                            then before[x.id := before[x.id].(publics := before[x.id].publics + x.publics[..j])]
                            else before[x.id := Info(x.id, x.addr, x.publics[..j], false)]
      {
        assert x.publics[..j + 1] == x.publics[..j] + [x.publics[j]];
        if x.id !in g {
          g := g[x.id := Info(x.id, x.addr, [], false)];
        }
        g := g[x.id := g[x.id].(publics := g[x.id].publics + [x.publics[j]])];
        if x.id in before {
          assert g[x.id].publics == before[x.id].publics + x.publics[..j + 1];
        } else {
          assert g[x.id].publics == x.publics[..j + 1];
        }
        j := j + 1;
      }
      assert x.publics[..j] == x.publics;
    }

    /** `fullCompareDiffNode`: the claimed nodes that the full list does not mention. */
    method FullCompareDiffNode(m: int, g: map<int, Info>) returns (diff: seq<int>)
      ensures forall n :: n in diff <==> n in ClaimsFrom(mapDiscovery, m) && n !in g
    {
      diff := [];
      if m !in mapDiscovery {
        return;
      }
      var rest := mapDiscovery[m];
      while rest != {}
        invariant rest <= mapDiscovery[m]
        invariant forall n :: n in diff <==> n in mapDiscovery[m] && n !in rest && n !in g
        decreases rest
      {
        ghost var any := OneOf(rest);
        var n :| n in rest;
        rest := rest - {n};
        if n !in g {
          diff := diff + [n];
        }
      }
    }

    /** A service is appended once for every interest that names it. */
    method AppendWanted(before: seq<Service>, s: Service) returns (services: seq<Service>)
      ensures services == before + Copies(s, interests, |interests|)
    {
      services := before;
      var j := 0;
      while j < |interests|
        invariant 0 <= j <= |interests| && services == before + Copies(s, interests, j)
      {
        if s == interests[j] {
          assert before + Copies(s, interests, j) + [s] == before + (Copies(s, interests, j) + [s]);
          services := services + [s];
        }
        j := j + 1;
      }
    }

    method Filter(publics: seq<Service>) returns (services: seq<Service>)
      ensures services == Wanted(publics, interests)
      ensures forall s :: s in services <==> s in publics && (interests == [] || s in interests)
    {
      hide Copies;
      forall s { DM.WantedMeaning(publics, interests, s); }
      services := publics;
      if |interests| > 0 {
        services := [];
        var i := 0;
        while i < |publics|
          invariant 0 <= i <= |publics| && services == Picked(publics, interests, i)
        {
          services := AppendWanted(services, publics[i]);
          i := i + 1;
        }
      }
    }

    /** `setNodeInfo`: the services of interest, if any is left, become those of the node; the local node and hidden
        nodes are left alone. */
    method SetNodeInfo(x: Info)
      requires cluster.Valid()
      modifies cluster`mapServiceNode, cluster`mapIdNode, cluster`mapRpc
      ensures cluster.Valid()
      ensures if x.hidden || x.id == cluster.local.id || Wanted(x.publics, interests) == []
              then cluster.View() == old(cluster.View())
              else
                && x.id in cluster.mapRpc
                && cluster.View() == WithNode(old(cluster.View()), NodeOf(x, interests), cluster.mapRpc[x.id])
                && (x.id !in old(cluster.mapRpc) ==> fresh(cluster.mapRpc[x.id]))
      ensures x.hidden || x.id == cluster.local.id
              || (forall s :: s in x.publics ==> interests != [] && s !in interests) ==>
                cluster.mapIdNode == old(cluster.mapIdNode)
      ensures !x.hidden && x.id != cluster.local.id ==>
                forall s :: s in x.publics && (interests == [] || s in interests) ==>
                  && x.id in cluster.mapIdNode && s in cluster.mapIdNode[x.id].publics
                  && (forall t :: t in cluster.mapIdNode[x.id].publics <==>
                        t in x.publics && (interests == [] || t in interests))
                  && cluster.mapIdNode[x.id].addr == x.addr && cluster.mapIdNode[x.id].id == x.id
    {
      if x.hidden || x.id == cluster.local.id {
        return;
      }
      var services := Filter(x.publics);
      if |services| == 0 {
        return;
      }
      assert services[0] in services;
      cluster.SetNodeInfo(Node(x.id, x.addr, services, services, Normal));
    }

    ghost function Me(): (r: Viewer)
      reads cluster
    {
      Viewer(cluster.local.id, IsMaster(cluster.masters, cluster.local.id))
    }

    /** The nodes whose connection is up. */
    ghost function Up(): (r: set<int>)
      reads cluster, cluster.mapRpc.Values
    {
      set n | n in cluster.mapRpc && cluster.mapRpc[n].connected
    }

    /** What is left of the clients, and which of them are up. */
    ghost predicate ClientsLeft(clients: map<int, C.RpcClient>, up: set<int>)
      reads cluster, cluster.mapRpc.Values
    {
      forall n :: n in cluster.mapRpc ==>
        n in clients && cluster.mapRpc[n] == clients[n] && (cluster.mapRpc[n].connected <==> n in up)
    }

    /** Where the deletion loop stands after the nodes `gone`. */
    ghost predicate GaveUp(claims: Claims, nodes: map<int, Node>, up: set<int>, m: int, gone: seq<int>)
      reads this, cluster
    {
      && mapDiscovery == GivenUp(claims, m, gone)
      && cluster.mapIdNode == nodes - DeletedFor(cluster.local.id, cluster.masters, claims, nodes, up, m, gone)
    }

    /** The claim on one more node is given up, and the node deleted if nobody else claims it. */
    method GiveUpOne(m: int, n: int, ghost claims: Claims, ghost nodes: map<int, Node>, ghost up: set<int>,
                     ghost clients: map<int, C.RpcClient>, ghost gone: seq<int>)
      requires cluster.Valid() && Indexed(cluster.View()) && ClientsLeft(clients, up) && GaveUp(claims, nodes, up, m, gone)
      modifies this`mapDiscovery, cluster`mapServiceNode, cluster`mapIdNode, cluster`mapRpc, cluster.mapRpc.Values
      ensures cluster.Valid() && Indexed(cluster.View()) && ClientsLeft(clients, up)
      ensures GaveUp(claims, nodes, up, m, gone + [n])
    {
      hide ClaimedBySome, ClaimedByOther, Indexed, GivenUp, DeletedFor, IsMaster;
      GivenUpMore(claims, m, gone, n);
      DeletedForMore(cluster.local.id, cluster.masters, claims, nodes, up, m, gone, n);
      RemoveMasterNode(m, n);
      var found := FindNodeId(n);
      if !found {
        ghost var connected := n in cluster.mapRpc && cluster.mapRpc[n].connected;
        DeletedInCluster(cluster.View(), claims, nodes, up, m, gone, n, connected);
        DelKeepsIndexed(cluster.View(), n, false, connected);
        ghost var before := cluster.mapRpc;
        cluster.DelNodeInfo(n, false);
        forall k | k in cluster.mapRpc
          ensures k in clients && cluster.mapRpc[k] == clients[k] && (cluster.mapRpc[k].connected <==> k in up)
        {
          assert k in before && before[k] == cluster.mapRpc[k] && (k != n && n in before ==> before[k] != before[n]);
        }
      }
    }

    /** The claims on the nodes `gone` are given up, and those that nobody else claims are deleted. */
    method GiveUp(m: int, gone: seq<int>)
      requires cluster.Valid() && Indexed(cluster.View())
      modifies this`mapDiscovery, cluster`mapServiceNode, cluster`mapIdNode, cluster`mapRpc, cluster.mapRpc.Values
      ensures cluster.Valid() && Indexed(cluster.View()) && ClientsLeft(old(cluster.mapRpc), old(Up()))
      ensures GaveUp(old(mapDiscovery), old(cluster.mapIdNode), old(Up()), m, gone)
    {
      hide GaveUp, Indexed, Up, ClientsLeft;
      ghost var claims, nodes, up, clients := mapDiscovery, cluster.mapIdNode, Up(), cluster.mapRpc;
      NothingGivenUp(m);
      assert gone[..0] == [];
      var i := 0;
      while i < |gone|
        invariant 0 <= i <= |gone| && cluster.Valid() && Indexed(cluster.View())
        invariant ClientsLeft(clients, up) && GaveUp(claims, nodes, up, m, gone[..i])
        invariant cluster.mapRpc.Values <= clients.Values
      {
        assert gone[..i + 1] == gone[..i] + [gone[i]];
        GiveUpOne(m, gone[i], claims, nodes, up, clients, gone[..i]);
        LeftAreFewer(clients, up);
        i := i + 1;
      }
      assert gone[..i] == gone;
    }

    lemma LeftAreFewer(clients: map<int, C.RpcClient>, up: set<int>)
      requires ClientsLeft(clients, up)
      ensures cluster.mapRpc.Values <= clients.Values
    {
      forall c | c in cluster.mapRpc.Values ensures c in clients.Values {
        var n := KeyOfValue(cluster.mapRpc, c);
        assert clients[n] == c;
      }
    }

    lemma NothingGivenUp(m: int)
      ensures GaveUp(mapDiscovery, cluster.mapIdNode, Up(), m, []) && ClientsLeft(cluster.mapRpc, Up())
    {
      var nobody := set n: int | n in [];
      assert nobody == {};
      assert m in mapDiscovery ==> mapDiscovery[m] - nobody == mapDiscovery[m];
      assert DeletedFor(cluster.local.id, cluster.masters, mapDiscovery, cluster.mapIdNode, Up(), m, []) == {};
      assert cluster.mapIdNode - {} == cluster.mapIdNode;
    }

    /** One gathered entry is claimed from the master and set. */
    method TakeOver(m: int, x: Info)
      requires cluster.Valid() && Indexed(cluster.View()) && x.id != cluster.local.id && !x.hidden
      modifies this`mapDiscovery, cluster`mapServiceNode, cluster`mapIdNode, cluster`mapRpc
      ensures cluster.Valid() && Indexed(cluster.View())
      ensures mapDiscovery == old(mapDiscovery)[m := ClaimsFrom(old(mapDiscovery), m) + {x.id}]
      ensures cluster.mapIdNode == if Wanted(x.publics, interests) == [] then old(cluster.mapIdNode)
                                   else old(cluster.mapIdNode)[x.id := NodeOf(x, interests)]
    {
      hide Indexed, Wanted;
      AddMasterNode(m, x.id);
      ghost var before := cluster.View();
      SetNodeInfo(x);
      if Wanted(x.publics, interests) != [] {
        SetKeepsIndexed(before, NodeOf(x, interests), cluster.mapRpc[x.id]);
      }
    }

    /** The deletions of a message: the claims that a full list does not confirm, and the node it names. */
    method DropNodes(req: Req, g: map<int, Info>)
      requires cluster.Valid() && Indexed(cluster.View()) && g.Keys == Noticed(Me(), req.infos)
      modifies this`mapDiscovery, cluster`mapServiceNode, cluster`mapIdNode, cluster`mapRpc, cluster.mapRpc.Values
      ensures cluster.Valid() && Indexed(cluster.View())
      ensures mapDiscovery == ClaimsLeft(Me(), old(mapDiscovery), req)
      ensures cluster.mapIdNode == old(cluster.mapIdNode) - Deleted(Me(), cluster.masters, old(mapDiscovery),
                                                                    old(cluster.mapIdNode), old(Up()), req)
    {
      hide Indexed, IsMaster, Noticed, ClaimsLeft, Deleted, GivenUp, DeletedFor, Up;
      ghost var claims, nodes, up := mapDiscovery, cluster.mapIdNode, Up();
      var gone := [];
      if req.full {
        gone := FullCompareDiffNode(req.master, g);
      }
      if req.del > 0 && req.del != cluster.local.id {
        gone := gone + [req.del];
      }
      GivenUpIsLeft(Me(), cluster.masters, claims, nodes, up, req, gone);
      GiveUp(req.master, gone);
    }

    /** The additions of a message, in any order. */
    method TakeOverAll(m: int, g: map<int, Info>)
      requires cluster.Valid() && Indexed(cluster.View())
      requires forall n :: n in g ==> g[n].id == n && n != cluster.local.id && !g[n].hidden
      modifies this`mapDiscovery, cluster`mapServiceNode, cluster`mapIdNode, cluster`mapRpc
      ensures cluster.Valid() && Indexed(cluster.View())
      ensures mapDiscovery == ClaimsWith(old(mapDiscovery), m, g.Keys)
      ensures cluster.mapIdNode == old(cluster.mapIdNode) + Fresh(g, interests)
    {
      hide Indexed, Fresh, ClaimsWith;
      ghost var left, kept := mapDiscovery, cluster.mapIdNode;
      var rest := g.Keys;
      NothingTaken(left, m, g, kept);
      while rest != {}
        invariant rest <= g.Keys && cluster.Valid() && Indexed(cluster.View())
        invariant mapDiscovery == ClaimsWith(left, m, g.Keys - rest)
        invariant cluster.mapIdNode == kept + Fresh(g - rest, interests)
        decreases rest
      {
        ghost var any := OneOf(rest);
        var n :| n in rest;
        ClaimsWithMore(left, m, g.Keys - rest, n);
        FreshMore(g, rest, n, interests);
        KeysMore(g.Keys, rest, n);
        rest := rest - {n};
        TakeOver(m, g[n]);
      }
      AllTaken(g);
    }

    lemma Meaning(req: Req, up: set<int>)
      ensures var r := DM.Reader(cluster.local.id, cluster.masters, interests, up);
              && DM.ClaimsDone(r, req, mapDiscovery, ClaimsAfter(Me(), mapDiscovery, req))
              && DM.NodesDone(r, req, mapDiscovery, cluster.mapIdNode,
                              NodesAfter(Me(), cluster.masters, interests, mapDiscovery, cluster.mapIdNode, up, req))
    {
      hide DM.ClaimsDone, DM.NodesDone, ClaimsAfter, NodesAfter;
      DM.MessageMeaning(DM.Reader(cluster.local.id, cluster.masters, interests, up), req, mapDiscovery,
                        cluster.mapIdNode);
    }

    /** `RPC_SubServiceDiscover`: what a list from a master does to the claims and to the known nodes. */
    method SubServiceDiscover(req: Req)
      requires cluster.Valid() && Indexed(cluster.View())
      modifies this`mapDiscovery, cluster`mapServiceNode, cluster`mapIdNode, cluster`mapRpc, cluster.mapRpc.Values
      ensures cluster.Valid() && Indexed(cluster.View())
      ensures mapDiscovery == ClaimsAfter(Me(), old(mapDiscovery), req)
      ensures cluster.mapIdNode == NodesAfter(Me(), cluster.masters, interests, old(mapDiscovery),
                                              old(cluster.mapIdNode), old(Up()), req)
      ensures var r := DM.Reader(cluster.local.id, cluster.masters, interests, old(Up()));
              && DM.ClaimsDone(r, req, old(mapDiscovery), mapDiscovery)
              && DM.NodesDone(r, req, old(mapDiscovery), old(cluster.mapIdNode), cluster.mapIdNode)
    {
      hide DM.ClaimsDone, DM.NodesDone;
      Meaning(req, Up());
      hide Indexed, Noticed, Gathered, Fresh, ClaimsWith, ClaimsLeft, ClaimsAfter, Deleted, Up;
      ghost var claims, v := mapDiscovery, Me();
      var g := Gather(req.infos);
      GatheredIsNoticed(v, req.infos);
      DropNodes(req, g);
      TakeOverAll(req.master, g);
      ClaimsWithAll(v, claims, req);
    }

    lemma KeysMore(keys: set<int>, rest: set<int>, n: int)
      requires n in rest && rest <= keys
      ensures keys - (rest - {n}) == keys - rest + {n}
    {
    }

    lemma NothingTaken(left: Claims, m: int, g: map<int, Info>, kept: map<int, Node>)
      ensures left == ClaimsWith(left, m, g.Keys - g.Keys) && kept == kept + Fresh(g - g.Keys, interests)
    {
      assert g - g.Keys == map[];
      assert Fresh(map[], interests) == map[];
    }

    lemma AllTaken(g: map<int, Info>)
      ensures g.Keys - {} == g.Keys && g - {} == g
    {
    }

    ghost predicate MastersCovered(masters: seq<Node>) {
      forall i :: 0 <= i < |masters| ==> Covered(masters[i]) && masters[i].status == Normal
    }

    lemma MastersKnown(nodes: map<int, Node>)
      ensures var out := MastersSet(cluster.local.id, cluster.masters, nodes, |cluster.masters|);
              && (forall j :: 0 <= j < |cluster.masters| && cluster.masters[j].id != cluster.local.id ==>
                    && cluster.masters[j].id in out
                    && (LastOf(cluster.masters, j, |cluster.masters|) ==>
                          out[cluster.masters[j].id] == cluster.masters[j]))
              && (forall n :: !DM.Configured(cluster.masters, n) || n == cluster.local.id ==>
                    Lookup(out, n) == Lookup(nodes, n))
    {
      hide LastOf;
      var out := MastersSet(cluster.local.id, cluster.masters, nodes, |cluster.masters|);
      forall j | 0 <= j < |cluster.masters| && cluster.masters[j].id != cluster.local.id
        ensures cluster.masters[j].id in out
        ensures LastOf(cluster.masters, j, |cluster.masters|) ==> out[cluster.masters[j].id] == cluster.masters[j]
      {
        MastersSetLast(cluster.local.id, cluster.masters, nodes, j, |cluster.masters|);
      }
      forall n | !DM.Configured(cluster.masters, n) || n == cluster.local.id ensures Lookup(out, n) == Lookup(nodes, n) {
        MastersSetOthers(cluster.local.id, cluster.masters, nodes, |cluster.masters|, n);
      }
    }

    /** When the service starts, all configured masters are set and thus connected to. */
    method AddDiscoveryMaster()
      requires cluster.Valid()
      modifies cluster`mapServiceNode, cluster`mapIdNode, cluster`mapRpc
      ensures cluster.Valid()
      ensures old(Indexed(cluster.View())) && MastersCovered(cluster.masters) ==> Indexed(cluster.View())
      ensures cluster.mapIdNode
           == MastersSet(cluster.local.id, cluster.masters, old(cluster.mapIdNode), |cluster.masters|)
      ensures forall j :: 0 <= j < |cluster.masters| && cluster.masters[j].id != cluster.local.id ==>
                cluster.masters[j].id in cluster.mapIdNode
      ensures forall j :: 0 <= j < |cluster.masters| && LastOf(cluster.masters, j, |cluster.masters|)
                          && cluster.masters[j].id != cluster.local.id ==>
                            cluster.mapIdNode[cluster.masters[j].id] == cluster.masters[j]
      ensures forall n :: !DM.Configured(cluster.masters, n) || n == cluster.local.id ==>
                            Lookup(cluster.mapIdNode, n) == Lookup(old(cluster.mapIdNode), n)
    {
      hide Indexed;
      var i := 0;
      while i < |cluster.masters|
        invariant 0 <= i <= |cluster.masters| && cluster.Valid()
        invariant old(Indexed(cluster.View())) && MastersCovered(cluster.masters) ==> Indexed(cluster.View())
        invariant cluster.mapIdNode == MastersSet(cluster.local.id, cluster.masters, old(cluster.mapIdNode), i)
      {
        if cluster.masters[i].id != cluster.local.id {
          ghost var before := cluster.View();
          cluster.SetNodeInfo(cluster.masters[i]);
          if Indexed(before) && MastersCovered(cluster.masters) {
            SetKeepsIndexed(before, cluster.masters[i], cluster.mapRpc[cluster.masters[i].id]);
          }
        }
        i := i + 1;
      }
      MastersKnown(old(cluster.mapIdNode));
    }

    /** When a connection goes down, a node marked as discarded should go; none ever is. */
    method OnNodeDisconnect(n: int)
      requires cluster.Valid() && Indexed(cluster.View())
      modifies cluster`mapServiceNode, cluster`mapIdNode, cluster`mapRpc
      modifies if n in cluster.mapRpc then {cluster.mapRpc[n]} else {}
      ensures cluster.Valid() && cluster.View() == old(cluster.View())
    {
      cluster.DiscardNode(n);
    }
  }
}
