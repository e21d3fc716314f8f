/** That discovery gets somewhere (cluster/dynamicdiscovery.go): a node is synced by its master's next connection to it,
    whatever has happened before. */
module DiscoveryProgress {
  import opened DiscoverySpec
  import opened DiscoveryNet

  /** The events lead from one state to another. */
  ghost predicate Leads(net: Net, events: seq<Event>, out: Net)
    decreases |events|
  {
    if events == [] then out == net else Enabled(net, events[0]) && Leads(Apply(net, events[0]), events[1..], out)
  }

  lemma OneMore(net: Net, e: Event, events: seq<Event>, out: Net)
    requires Enabled(net, e) && Leads(Apply(net, e), events, out)
    ensures Leads(net, [e] + events, out)
  {
    hide Enabled, Apply;
    assert ([e] + events)[1..] == events;
  }

  /** Only the link between the two changed: it is synced, and the registry of the master is as before. */
  ghost predicate Synced(net: Net, out: Net, link: Link) {
    NetOk(out) && link in out.synced && out.registries == net.registries && out.config == net.config
  }

  lemma DeliveryIsEnabled(net: Net, link: Link)
    requires link in net.synced && QueueOf(net, link) != []
    ensures Enabled(net, Deliver(link))
    ensures var out := Apply(net, Deliver(link));
            && out.registries == net.registries && out.config == net.config && link in out.synced
            && QueueOf(out, link) == QueueOf(net, link)[1..]
  {
  }

  /** Delivering what is queued on a synced link empties it. */
  lemma {:induction false} Drained(net: Net, link: Link) returns (events: seq<Event>, out: Net)
    requires NetOk(net) && link in net.synced
    ensures Leads(net, events, out) && |events| == |QueueOf(net, link)|
    ensures forall j :: 0 <= j < |events| ==> events[j] == Deliver(link)
    ensures Synced(net, out, link) && QueueOf(out, link) == []
    decreases |QueueOf(net, link)|
  {
    hide NetOk, Enabled, Apply;
    events, out := [], net;
    if QueueOf(net, link) != [] {
      DeliveryIsEnabled(net, link);
      EventOk(net, Deliver(link));
      var next := Apply(net, Deliver(link));
      events, out := Drained(next, link);
      OneMore(net, Deliver(link), events, out);
      events := [Deliver(link)] + events;
    }
  }

  lemma ConnectSyncs(net: Net, link: Link)
    requires link.master in net.registries && net.registries[link.master].IsReg(link.node) && link.node != link.master
    ensures var e := Connect(link.master, link.node, true);
            && Enabled(net, e)
            && var out := Apply(net, e);
               && out.registries == net.registries && out.config == net.config && link in out.synced
               && |QueueOf(out, link)| == |QueueOf(net, link)| + 1
  {
  }

  lemma DrainedIsExact(net: Net, link: Link)
    requires NetOk(net) && link in net.synced && QueueOf(net, link) == []
    ensures link.master in net.registries
    ensures ClaimsOf(net, link) == Noticed(ViewerOf(net, link.node), net.registries[link.master].infos)
  {
    hide Noticed;
    assert LinkOk(net, link);
  }

  /** The entry of a node in a registry that another one, master or not, takes notice of. */
  ghost predicate Found(infos: seq<Info>, n: int, reader: int, isMaster: bool) {
    exists x :: x in infos && x.id == n && n != reader && x.publics != [] && (isMaster || x.publics != ["DiscoveryClient"])
  }

  lemma NoticedIsFound(v: Viewer, infos: seq<Info>, n: int)
    ensures n in Noticed(v, infos) <==> Found(infos, n, v.local, v.isMaster)
  {
  }

  /** From every state of every run: a master that connects to a node registered with it, and the delivery of what is
      then on the link, leave the node with exactly the registered nodes that it notices. */
  lemma ConnectingConverges(states: seq<Net>, events: seq<Event>, config: set<int>, i: nat, link: Link)
    returns (more: seq<Event>, out: Net)
    requires Run(states, events, config) && i < |states| && link.master in states[i].registries
    requires states[i].registries[link.master].IsReg(link.node) && link.node != link.master
    ensures Leads(states[i], more, out) && |more| == |QueueOf(states[i], link)| + 2
    ensures more[0] == Connect(link.master, link.node, true)
    ensures forall j :: 1 <= j < |more| ==> more[j] == Deliver(link)
    ensures out.registries == states[i].registries && QueueOf(out, link) == []
    ensures forall n :: n in ClaimsOf(out, link) <==>
              Found(states[i].registries[link.master].infos, n, link.node, link.node in states[i].config)
  {
    hide Found, Noticed, NetOk, Enabled, Apply, Leads, Run;
    var net, connect := states[i], Connect(link.master, link.node, true);
    RunOk(states, events, config, i);
    ConnectSyncs(net, link);
    EventOk(net, connect);
    more, out := Drained(Apply(net, connect), link);
    OneMore(net, connect, more, out);
    DrainedIsExact(out, link);
    forall n
      ensures n in ClaimsOf(out, link) <==>
              Found(net.registries[link.master].infos, n, link.node, link.node in net.config)
    {
      NoticedIsFound(ViewerOf(out, link.node), net.registries[link.master].infos, n);
    }
    more := [connect] + more;
  }
}
