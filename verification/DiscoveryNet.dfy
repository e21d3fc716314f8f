/** Any number of masters and nodes exchanging discovery messages over connections that deliver in order
    (cluster/dynamicdiscovery.go). Every handler runs to its end before the next event of its service. */
module DiscoveryNet {
  import opened Collections
  import opened DiscoverySpec

  datatype Link = Link(master: int, node: int)

  /** `config` are the configured masters, `registries` the masters that run. Per link from a master to a node:
      `claims` is what the node has from that master, `queues` the messages under way on the present connection,
      and `synced` says that a full list was sent on the present connection. */
  datatype Net = Net(
    config: set<int>, registries: map<int, Registry>, claims: map<Link, set<int>>, queues: map<Link, seq<Req>>,
    synced: set<Link>)

  /** `Restart`: a node's process starts anew and, being a master that is not private, registers itself.
      `Register`: a master handles a registration. `Connect`, `Disconnect`: a master handles the event that its
      connection to a node is up or down. `Drop`: the connection of a link ends, with all that is under way.
      `Deliver`: a node handles the next message of a master. `reached` are the nodes whose connections take the
      broadcast, `sent` whether the connection takes the full list. */
  datatype Event =
    | Restart(self: Info)
    | Register(master: int, info: Info, reached: set<int>)
    | Connect(master: int, node: int, sent: bool)
    | Disconnect(master: int, node: int, reached: set<int>)
    | Drop(link: Link)
    | Deliver(link: Link)

  function Init(config: set<int>): (r: Net) {
    Net(config, map[], map[], map[], {})
  }

  function ViewerOf(net: Net, node: int): (r: Viewer) {
    Viewer(node, node in net.config)
  }

  function ClaimsOf(net: Net, link: Link): (r: set<int>) {
    if link in net.claims then net.claims[link] else {}
  }

  function QueueOf(net: Net, link: Link): (r: seq<Req>) {
    if link in net.queues then net.queues[link] else []
  }

  /** A message to a node can fail only where no full list went over the present connection yet: a write error
      closes the connection. */
  ghost predicate Reaches(net: Net, master: int, reached: set<int>) {
    forall link: Link :: link.master == master && link in net.synced ==> link.node in reached
  }

  /** Node ids are positive, and no master gets connection events about itself. */
  ghost predicate Enabled(net: Net, e: Event) {
    match e
    case Restart(self) => self.id > 0
    case Register(m, info, reached) => m in net.registries && info.id > 0 && Reaches(net, m, reached)
    case Connect(m, n, _) => m in net.registries && n != m
    case Disconnect(m, n, reached) => m in net.registries && n != m && Reaches(net, m, reached)
    case Drop(link) => link.master != link.node
    case Deliver(link) => QueueOf(net, link) != []
  }

  /** `RpcBroadCastGo`: to every registered node. */
  function Broadcast(net: Net, m: int, req: Req, reached: set<int>): (r: map<Link, seq<Req>>)
    requires m in net.registries
  {
    var targets := set n | n in reached && net.registries[m].IsReg(n) :: Link(m, n);
    map link | link in net.queues.Keys + targets ::
      if link in targets then QueueOf(net, link) + [req] else QueueOf(net, link)
  }

  function Apply(net: Net, e: Event): (r: Net)
    requires Enabled(net, e)
  {
    match e
    case Restart(self) =>
      var n := self.id;
      var out := net.(
        registries := if n in net.config
                      then net.registries[n := if self.hidden then NOBODY_REGISTERED
                                               else NOBODY_REGISTERED.Add(self)]
                      else net.registries,
        claims := map link | link in net.claims && link.node != n :: net.claims[link],
        queues := map link | link in net.queues && link.node != n && link.master != n :: net.queues[link],
        synced := set link | link in net.synced && link.node != n && link.master != n);
      if n in net.config && out.registries[n].IsReg(n) then out.(synced := out.synced + {Link(n, n)}) else out
    case Register(m, info, reached) =>
      net.(queues := Broadcast(net, m, Req(m, false, [info], 0), reached),
           registries := net.registries[m := net.registries[m].Add(info)],
           synced := if info.id in net.config || info.id == m then net.synced else net.synced - {Link(m, info.id)})
    case Connect(m, n, sent) =>
      if !net.registries[m].IsReg(n) then net
      else if !sent then net.(synced := net.synced - {Link(m, n)})
      else
        var req := Req(m, true, net.registries[m].infos, 0);
        net.(queues := net.queues[Link(m, n) := QueueOf(net, Link(m, n)) + [req]], synced := net.synced + {Link(m, n)})
    case Disconnect(m, n, reached) =>
      if !net.registries[m].IsReg(n) then net
      else
        net.(queues := Broadcast(net, m, Req(m, false, [], n), reached),
             registries := net.registries[m := net.registries[m].Remove(n, m)], synced := net.synced - {Link(m, n)})
    case Drop(link) =>
      net.(queues := net.queues - {link}, synced := net.synced - {link})
    case Deliver(link) =>
      var req := QueueOf(net, link)[0];
      net.(queues := net.queues[link := QueueOf(net, link)[1..]],
           claims := net.claims[link := Claimed(ViewerOf(net, link.node), ClaimsOf(net, link), req)])
  }

  // Part 1: The invariant.

  /** What the node will claim from the master once everything under way has arrived. */
  function Settled(net: Net, link: Link): (r: set<int>) {
    ClaimedAll(ViewerOf(net, link.node), ClaimsOf(net, link), QueueOf(net, link))
  }

  ghost predicate LinkOk(net: Net, link: Link) {
    link in net.synced ==>
      && link.master in net.registries && net.registries[link.master].IsReg(link.node)
      && Settled(net, link) == Noticed(ViewerOf(net, link.node), net.registries[link.master].infos)
  }

  ghost predicate MasterOk(net: Net, m: int) {
    m in net.registries ==>
      && Agrees(net.registries[m])
      && forall n :: net.registries[m].IsReg(n) ==> n > 0
  }

  ghost predicate NetOk(net: Net) {
    (forall link :: LinkOk(net, link)) && (forall m :: MasterOk(net, m))
  }

  lemma BroadcastMeaning(net: Net, m: int, req: Req, reached: set<int>, link: Link)
    requires m in net.registries
    ensures var out := Broadcast(net, m, req, reached);
            (if link in out then out[link] else [])
            == QueueOf(net, link)
               + if link.master == m && link.node in reached && net.registries[m].IsReg(link.node) then [req] else []
  {
  }

  /** A link whose end hears a broadcast stays settled if the broadcast says what changed. */
  lemma HeardKeepsLink(net: Net, out: Net, link: Link, req: Req)
    requires LinkOk(net, link) && out.config == net.config && ClaimsOf(out, link) == ClaimsOf(net, link)
    requires QueueOf(out, link) == QueueOf(net, link) + [req]
    requires link in net.synced && link.master in out.registries && out.registries[link.master].IsReg(link.node)
    requires var v := ViewerOf(net, link.node);
             Claimed(v, Noticed(v, net.registries[link.master].infos), req)
             == Noticed(v, out.registries[link.master].infos)
    ensures LinkOk(out, link)
  {
    ClaimedLast(ViewerOf(net, link.node), ClaimsOf(net, link), QueueOf(net, link), req);
  }

  lemma SameKeepsLink(net: Net, out: Net, link: Link)
    requires LinkOk(net, link) && out.config == net.config && ClaimsOf(out, link) == ClaimsOf(net, link)
    requires QueueOf(out, link) == QueueOf(net, link) && (link in out.synced ==> link in net.synced)
    requires Lookup(net.registries, link.master) == Lookup(out.registries, link.master)
    ensures LinkOk(out, link)
  {
  }

  lemma RegisterOk(net: Net, m: int, info: Info, reached: set<int>)
    requires NetOk(net) && Enabled(net, Register(m, info, reached))
    ensures NetOk(Apply(net, Register(m, info, reached)))
  {
    hide Agrees, Noticed;
    var out := Apply(net, Register(m, info, reached));
    var req := Req(m, false, [info], 0);
    assert MasterOk(net, m);
    AddAgrees(net.registries[m], info);
    forall n | net.registries[m].Add(info).IsReg(n) ensures n > 0 {
      assert n != info.id ==> net.registries[m].IsReg(n);
    }
    forall other ensures MasterOk(out, other) {
      assert MasterOk(net, other);
    }
    forall link ensures LinkOk(out, link) {
      assert LinkOk(net, link);
      BroadcastMeaning(net, m, req, reached, link);
      if link.master != m {
        SameKeepsLink(net, out, link);
      } else if link in out.synced {
        RegistrationIsNews(ViewerOf(net, link.node), net.registries[m], info, m);
        HeardKeepsLink(net, out, link, req);
      }
    }
  }

  lemma RegistrationIsNews(v: Viewer, r: Registry, info: Info, m: int)
    ensures Claimed(v, Noticed(v, r.infos), Req(m, false, [info], 0)) == Noticed(v, r.Add(info).infos)
  {
    NoticedMore(v, r.infos, info);
    assert info.publics == [] ==> Noticed(v, [info]) == {};
  }

  lemma RemovalIsNews(v: Viewer, r: Registry, n: int, m: int)
    requires n > 0 && n != m && n != v.local
    ensures Claimed(v, Noticed(v, r.infos), Req(m, false, [], n)) == Noticed(v, r.Remove(n, m).infos)
  {
    NoticedOthers(v, r.infos, n);
  }

  lemma DisconnectOk(net: Net, m: int, n: int, reached: set<int>)
    requires NetOk(net) && Enabled(net, Disconnect(m, n, reached))
    ensures NetOk(Apply(net, Disconnect(m, n, reached)))
  {
    hide Agrees, Noticed;
    var out := Apply(net, Disconnect(m, n, reached));
    assert MasterOk(net, m);
    if net.registries[m].IsReg(n) {
      var req := Req(m, false, [], n);
      RemoveAgrees(net.registries[m], n, m);
      forall k | net.registries[m].Remove(n, m).IsReg(k) ensures k > 0 {
        assert net.registries[m].IsReg(k);
      }
      forall other ensures MasterOk(out, other) {
        assert MasterOk(net, other);
      }
      forall link ensures LinkOk(out, link) {
        assert LinkOk(net, link);
        BroadcastMeaning(net, m, req, reached, link);
        if link.master != m {
          SameKeepsLink(net, out, link);
        } else if link in out.synced {
          RemovalIsNews(ViewerOf(net, link.node), net.registries[m], n, m);
          HeardKeepsLink(net, out, link, req);
        }
      }
    }
  }

  lemma ConnectOk(net: Net, m: int, n: int, sent: bool)
    requires NetOk(net) && Enabled(net, Connect(m, n, sent))
    ensures NetOk(Apply(net, Connect(m, n, sent)))
  {
    var out := Apply(net, Connect(m, n, sent));
    forall other ensures MasterOk(out, other) {
      assert MasterOk(net, other);
    }
    forall link ensures LinkOk(out, link) {
      assert LinkOk(net, link);
      if link == Link(m, n) && sent && net.registries[m].IsReg(n) {
        var v, req := ViewerOf(net, n), Req(m, true, net.registries[m].infos, 0);
        ClaimedLast(v, ClaimsOf(net, link), QueueOf(net, link), req);
        FullSyncIsExact(v, ClaimedAll(v, ClaimsOf(net, link), QueueOf(net, link)), req);
      } else {
        SameKeepsLink(net, out, link);
      }
    }
  }

  lemma RestartedMasterOk(net: Net, self: Info, m: int)
    requires NetOk(net) && self.id > 0
    ensures MasterOk(Apply(net, Restart(self)), m)
  {
    assert MasterOk(net, m);
    AddAgrees(NOBODY_REGISTERED, self);
  }

  lemma RestartedLinkOk(net: Net, self: Info, link: Link)
    requires LinkOk(net, link) && self.id > 0
    ensures LinkOk(Apply(net, Restart(self)), link)
  {
    hide Agrees;
    var out, n := Apply(net, Restart(self)), self.id;
    if link.master != n && link.node != n {
      SameKeepsLink(net, out, link);
    } else if link in out.synced {
      assert link == Link(n, n) && QueueOf(out, link) == [] && ClaimsOf(out, link) == {};
      assert out.registries[n].infos == [self];
    }
  }

  lemma RestartOk(net: Net, self: Info)
    requires NetOk(net) && self.id > 0
    ensures NetOk(Apply(net, Restart(self)))
  {
    hide Apply, LinkOk, MasterOk;
    forall m ensures MasterOk(Apply(net, Restart(self)), m) { RestartedMasterOk(net, self, m); }
    forall link ensures LinkOk(Apply(net, Restart(self)), link) { RestartedLinkOk(net, self, link); }
  }

  lemma DeliverOk(net: Net, e: Event)
    requires NetOk(net) && Enabled(net, e) && (e.Deliver? || e.Drop?)
    ensures NetOk(Apply(net, e))
  {
    var out := Apply(net, e);
    forall other ensures MasterOk(out, other) {
      assert MasterOk(net, other);
    }
    forall link ensures LinkOk(out, link) {
      assert LinkOk(net, link);
      if link != e.link { SameKeepsLink(net, out, link); }
    }
  }

  lemma EventOk(net: Net, e: Event)
    requires NetOk(net) && Enabled(net, e)
    ensures NetOk(Apply(net, e))
  {
    hide NetOk, Apply;
    match e
    case Restart(self) => RestartOk(net, self);
    case Register(m, info, reached) => RegisterOk(net, m, info, reached);
    case Connect(m, n, sent) => ConnectOk(net, m, n, sent);
    case Disconnect(m, n, reached) => DisconnectOk(net, m, n, reached);
    case Drop(_) => DeliverOk(net, e);
    case Deliver(_) => DeliverOk(net, e);
  }

  // Part 2: Every run.

  ghost predicate Run(states: seq<Net>, events: seq<Event>, config: set<int>) {
    && |states| == |events| + 1 && states[0] == Init(config)
    && forall i :: 0 <= i < |events| ==> Enabled(states[i], events[i]) && states[i + 1] == Apply(states[i], events[i])
  }

  lemma {:induction false} RunOk(states: seq<Net>, events: seq<Event>, config: set<int>, i: nat)
    requires Run(states, events, config) && i < |states|
    ensures NetOk(states[i])
  {
    hide NetOk, Enabled, Apply;
    if i == 0 {
      InitOk(config);
    } else {
      RunOk(states, events, config, i - 1);
      assert Enabled(states[i - 1], events[i - 1]) && states[i] == Apply(states[i - 1], events[i - 1]);
      EventOk(states[i - 1], events[i - 1]);
    }
  }

  lemma InitOk(config: set<int>)
    ensures NetOk(Init(config))
  {
  }

  /** Convergence: at any time in any run, once the messages under way have arrived, a node that was sent a full
      list on its present connection claims exactly those registered nodes that it notices. */
  lemma Converges(states: seq<Net>, events: seq<Event>, config: set<int>, i: nat, link: Link)
    requires Run(states, events, config) && i < |states| && link in states[i].synced
    ensures var net := states[i];
            && link.master in net.registries && net.registries[link.master].IsReg(link.node)
            && Settled(net, link) == Noticed(ViewerOf(net, link.node), net.registries[link.master].infos)
            && (QueueOf(net, link) == [] ==>
                  forall n :: n in ClaimsOf(net, link) ==> net.registries[link.master].IsReg(n) && n != link.node)
  {
    RunOk(states, events, config, i);
    assert LinkOk(states[i], link) && MasterOk(states[i], link.master);
  }

  /** Two nodes that are no masters and have nothing under way from a master agree on all others. */
  lemma TwoNodesAgree(states: seq<Net>, events: seq<Event>, config: set<int>, i: nat, one: Link, two: Link, n: int)
    requires Run(states, events, config) && i < |states|
    requires one in states[i].synced && two in states[i].synced && one.master == two.master
    requires one.node !in states[i].config && two.node !in states[i].config
    requires QueueOf(states[i], one) == [] && QueueOf(states[i], two) == []
    requires n != one.node && n != two.node
    ensures n in ClaimsOf(states[i], one) <==> n in ClaimsOf(states[i], two)
  {
    RunOk(states, events, config, i);
    var net := states[i];
    assert LinkOk(net, one) && LinkOk(net, two);
    var infos := net.registries[one.master].infos;
    if n in Noticed(ViewerOf(net, one.node), infos) {
      var x :| x in infos && Notices(ViewerOf(net, one.node), x) && x.id == n;
      assert Notices(ViewerOf(net, two.node), x);
    }
    if n in Noticed(ViewerOf(net, two.node), infos) {
      var x :| x in infos && Notices(ViewerOf(net, two.node), x) && x.id == n;
      assert Notices(ViewerOf(net, one.node), x);
    }
  }

  // Part 3: The claims of the network are those of the clients.

  /** The messages on a link come from its master. */
  ghost predicate SentByMasters(net: Net) {
    forall link: Link, req :: req in QueueOf(net, link) ==> req.master == link.master
  }

  /** A client's claims, master by master, are those that the network shows. */
  ghost predicate SameClaims(net: Net, n: int, claims: Claims) {
    forall m :: ClaimsFrom(claims, m) == ClaimsOf(net, Link(m, n))
  }

  /** What an event does to the claims of node `n`, as its client computes them. */
  function ClientStep(net: Net, n: int, claims: Claims, e: Event): (r: Claims)
    requires Enabled(net, e)
  {
    match e
    case Restart(self) => if self.id == n then map[] else claims
    case Deliver(link) =>
      if link.node == n then ClaimsAfter(ViewerOf(net, n), claims, QueueOf(net, link)[0]) else claims
    case _ => claims
  }

  lemma SentByMastersKept(net: Net, e: Event)
    requires SentByMasters(net) && Enabled(net, e)
    ensures SentByMasters(Apply(net, e))
  {
    var out := Apply(net, e);
    forall link: Link, req | req in QueueOf(out, link) ensures req.master == link.master {
      match e
      case Register(m, info, reached) => BroadcastMeaning(net, m, Req(m, false, [info], 0), reached, link);
      case Disconnect(m, n, reached) => BroadcastMeaning(net, m, Req(m, false, [], n), reached, link);
      case _ =>
    }
  }

  lemma ClientFollows(net: Net, n: int, claims: Claims, e: Event)
    requires SameClaims(net, n, claims) && SentByMasters(net) && Enabled(net, e)
    ensures SameClaims(Apply(net, e), n, ClientStep(net, n, claims, e))
  {
    hide Noticed, Claimed, ClaimsAfter;
    forall m ensures ClaimsFrom(ClientStep(net, n, claims, e), m) == ClaimsOf(Apply(net, e), Link(m, n)) {
      assert ClaimsFrom(claims, m) == ClaimsOf(net, Link(m, n));
      if e.Deliver? && e.link.node == n {
        var req := QueueOf(net, e.link)[0];
        assert req in QueueOf(net, e.link);
        OtherMastersUntouched(ViewerOf(net, n), claims, req, m);
      }
    }
  }

  /** The claims that the client of node `n` has computed up to state `i`. */
  function ClientClaims(states: seq<Net>, events: seq<Event>, n: int, i: nat): (r: Claims)
    requires i <= |events| < |states| && forall j :: 0 <= j < i ==> Enabled(states[j], events[j])
  {
    if i == 0 then map[]
    else ClientStep(states[i - 1], n, ClientClaims(states, events, n, i - 1), events[i - 1])
  }

  lemma {:induction false} RunFollows(states: seq<Net>, events: seq<Event>, config: set<int>, n: int, i: nat)
    requires Run(states, events, config) && i < |states|
    ensures SentByMasters(states[i]) && SameClaims(states[i], n, ClientClaims(states, events, n, i))
  {
    if i > 0 {
      hide Enabled, Apply, ClientStep, SameClaims, SentByMasters;
      RunFollows(states, events, config, n, i - 1);
      assert Enabled(states[i - 1], events[i - 1]) && states[i] == Apply(states[i - 1], events[i - 1]);
      SentByMastersKept(states[i - 1], events[i - 1]);
      ClientFollows(states[i - 1], n, ClientClaims(states, events, n, i - 1), events[i - 1]);
    }
  }

  /** Convergence for the claims that `SubServiceDiscover` computes: once nothing is under way on a synced link, they
      are exactly the registered nodes that the node notices. */
  lemma ClientConverges(states: seq<Net>, events: seq<Event>, config: set<int>, i: nat, link: Link)
    requires Run(states, events, config) && i < |states| && link in states[i].synced && QueueOf(states[i], link) == []
    ensures link.master in states[i].registries
    ensures ClaimsFrom(ClientClaims(states, events, link.node, i), link.master)
         == Noticed(ViewerOf(states[i], link.node), states[i].registries[link.master].infos)
  {
    hide Run, Noticed, ClientClaims;
    RunFollows(states, events, config, link.node, i);
    Converges(states, events, config, i, link);
  }

  // Part 4: What a late registration misses.

  /** What the master's list offers a node and the node will not claim even once everything under way has arrived. */
  function Missing(net: Net, link: Link): (r: set<int>)
    requires link.master in net.registries
  {
    Noticed(ViewerOf(net, link.node), net.registries[link.master].infos) - Settled(net, link)
  }

  /** A node that registers for the first time is sent nothing by that: what it misses is exactly what it missed of the
      list before. */
  lemma RegistrationSendsNothing(net: Net, m: int, info: Info, reached: set<int>)
    requires NetOk(net) && Enabled(net, Register(m, info, reached))
    requires info.publics != [] && !net.registries[m].IsReg(info.id)
    ensures var out, link := Apply(net, Register(m, info, reached)), Link(m, info.id);
            && m in out.registries && out.registries[m].IsReg(info.id) && link !in out.synced
            && Settled(out, link) == Settled(net, link) && Missing(out, link) == Missing(net, link)
  {
    hide Agrees, Noticed;
    var out, link := Apply(net, Register(m, info, reached)), Link(m, info.id);
    assert LinkOk(net, link);
    BroadcastMeaning(net, m, Req(m, false, [info], 0), reached, link);
    NoticedMore(ViewerOf(net, info.id), net.registries[m].infos, info);
    NotOneself(ViewerOf(net, info.id), info);
  }

  lemma NotOneself(v: Viewer, info: Info)
    ensures Noticed(v, [info]) == if Notices(v, info) then {info.id} else {}
  {
    assert info in [info];
  }

  predicate ToNode(e: Event, link: Link) {
    match e
    case Connect(m, n, _) => Link(m, n) == link
    case Drop(other) => other == link
    case Restart(self) => self.id == link.master || self.id == link.node
    case _ => false
  }

  lemma MissingAfterRegister(net: Net, m: int, info: Info, reached: set<int>, link: Link, n: int)
    requires Enabled(net, Register(m, info, reached)) && link.master in net.registries
    requires n in Missing(net, link) && info.id != n
    ensures n in Missing(Apply(net, Register(m, info, reached)), link)
  {
    hide Noticed;
    var v := ViewerOf(net, link.node);
    BroadcastMeaning(net, m, Req(m, false, [info], 0), reached, link);
    ClaimedLast(v, ClaimsOf(net, link), QueueOf(net, link), Req(m, false, [info], 0));
    NoticedMore(v, net.registries[m].infos, info);
    NotOneself(v, info);
  }

  lemma MissingAfterDisconnect(net: Net, m: int, k: int, reached: set<int>, link: Link, n: int)
    requires Enabled(net, Disconnect(m, k, reached)) && link.master in net.registries
    requires n in Missing(net, link) && k != n
    ensures n in Missing(Apply(net, Disconnect(m, k, reached)), link)
  {
    hide Noticed;
    var v := ViewerOf(net, link.node);
    BroadcastMeaning(net, m, Req(m, false, [], k), reached, link);
    ClaimedLast(v, ClaimsOf(net, link), QueueOf(net, link), Req(m, false, [], k));
    NoticedOthers(v, net.registries[m].infos, k);
    NothingNoticed(v);
  }

  /** What is missing stays so, until the master connects to the node again, the connection is lost, one of the two
      restarts, or the missing node itself registers again or disconnects. */
  lemma MissingStays(net: Net, e: Event, link: Link, n: int)
    requires Enabled(net, e) && link.master in net.registries && n in Missing(net, link)
    requires !ToNode(e, link) && (e.Register? ==> e.info.id != n) && (e.Disconnect? ==> e.node != n)
    ensures link.master in Apply(net, e).registries && n in Missing(Apply(net, e), link)
  {
    hide Noticed;
    match e
    case Register(m, info, reached) => MissingAfterRegister(net, m, info, reached, link, n);
    case Disconnect(m, k, reached) => MissingAfterDisconnect(net, m, k, reached, link, n);
    case _ =>
  }

  lemma NothingNoticed(v: Viewer)
    ensures Noticed(v, []) == {}
  {
  }

  /** Being registered is not enough: a configured master that registers with another one after their connection
      came up is never sent the full list, and lacks the nodes registered before. */
  lemma LateRegistrationIsLeftBehind(one: Info, two: Info) returns (states: seq<Net>, events: seq<Event>)
    requires one.id > 0 && two.id > 0 && one.id != two.id && one.publics != [] && two.publics != [] && !one.hidden
    ensures Run(states, events, {one.id, two.id}) && |states| == 4
    ensures var net, link := states[3], Link(one.id, two.id);
            && link.master in net.registries && net.registries[link.master].IsReg(link.node)
            && link !in net.synced && QueueOf(net, link) == []
            && Settled(net, link) != Noticed(ViewerOf(net, link.node), net.registries[link.master].infos)
  {
    hide Settled, Noticed;
    var config := {one.id, two.id};
    var a := Init(config);
    var b := Apply(a, Restart(one));
    assert b.registries[one.id] == Registry(map[one.id := true], [one]);
    var c := Apply(b, Connect(one.id, two.id, true));
    assert c == b && b.claims == map[] && b.queues == map[] && b.synced <= {Link(one.id, one.id)};
    var d := Apply(c, Register(one.id, two, {one.id}));
    states, events := [a, b, c, d], [Restart(one), Connect(one.id, two.id, true), Register(one.id, two, {one.id})];
    LateRegistration(c, one, two);
  }

  lemma LateRegistration(c: Net, one: Info, two: Info)
    requires one.id != two.id && two.id in c.config && one.publics != [] && two.publics != [] && !one.hidden
    requires two.id > 0 && one.id in c.registries && c.registries[one.id] == Registry(map[one.id := true], [one])
    requires c.synced <= {Link(one.id, one.id)} && c.claims == map[] && c.queues == map[]
    ensures var d, link := Apply(c, Register(one.id, two, {one.id})), Link(one.id, two.id);
            && one.id in d.registries && d.registries[one.id].IsReg(two.id)
            && link !in d.synced && QueueOf(d, link) == []
            && Settled(d, link) != Noticed(ViewerOf(d, two.id), d.registries[one.id].infos)
  {
    var d := Apply(c, Register(one.id, two, {one.id}));
    BroadcastMeaning(c, one.id, Req(one.id, false, [two], 0), {one.id}, Link(one.id, two.id));
    assert d.registries[one.id].infos == [one, two];
    assert one in d.registries[one.id].infos && Notices(Viewer(two.id, true), one);
    assert one.id in Noticed(ViewerOf(d, two.id), d.registries[one.id].infos);
  }
}
