/** What a process that is no master knows about other nodes, over all messages it may get from any number of
    masters (cluster/dynamicdiscovery.go, cluster/cluster.go). */
module ClaimSoundness {
  import opened ClusterSpec
  import opened DiscoverySpec

  /** `deferred` are the nodes that nobody claimed any more but that stayed because their connection was up. */
  datatype Process = Process(
    local: Node, masters: seq<Node>, interests: seq<Service>, claims: Claims, nodes: map<int, Node>, deferred: set<int>)

  /** `AddMasters`: the discovery client starts. `Message`: a list from a master arrives while the connections to
      the nodes `up` are up. `Disconnected`: a connection went down, which is when a discarded node should go. */
  datatype Event =
    | AddMasters
    | Message(req: Req, up: set<int>)
    | Disconnected(node: int)

  function Init(local: Node, masters: seq<Node>, interests: seq<Service>): (r: Process) {
    Process(local, masters, interests, map[], map[local.id := local], {})
  }

  function ViewerOf(p: Process): (r: Viewer) {
    Viewer(p.local.id, false)
  }

  /** The nodes whose deletion a message would like but puts off. */
  function PutOff(p: Process, req: Req, up: set<int>): (r: set<int>) {
    set n | n in Dropped(ViewerOf(p), ClaimsFrom(p.claims, req.master), req)
            && !ClaimedBySome(ClaimsLeft(ViewerOf(p), p.claims, req), n)
            && n in up && Removable(p.local.id, p.masters, p.nodes, {}, n)
  }

  function Apply(p: Process, e: Event): (r: Process) {
    match e
    case AddMasters => p.(nodes := MastersSet(p.local.id, p.masters, p.nodes, |p.masters|))
    case Message(req, up) =>
      var v := ViewerOf(p);
      p.(claims := ClaimsAfter(v, p.claims, req),
         nodes := NodesAfter(v, p.masters, p.interests, p.claims, p.nodes, up, req),
         deferred := p.deferred + PutOff(p, req, up) - Noticed(v, req.infos))
    case Disconnected(n) =>
      if n in p.nodes && p.nodes[n].status == Discard && Removable(p.local.id, p.masters, p.nodes, {}, n)
      then p.(nodes := p.nodes - {n}) else p
  }

  /** Every known node is the local one, a configured master, claimed by some master, or was put off. */
  ghost predicate Sound(p: Process) {
    && (forall n :: n in p.nodes ==>
          n == 0 || n == p.local.id || IsMaster(p.masters, n) || ClaimedBySome(p.claims, n) || n in p.deferred)
    && (forall n :: n in p.nodes ==> p.nodes[n].status == Normal)
    && p.local.status == Normal && forall i :: 0 <= i < |p.masters| ==> p.masters[i].status == Normal
  }

  lemma {:induction false} MastersSetSound(p: Process, k: nat, n: int)
    requires k <= |p.masters| && Sound(p) && n in MastersSet(p.local.id, p.masters, p.nodes, k)
    ensures n in p.nodes || IsMaster(p.masters, n)
    ensures MastersSet(p.local.id, p.masters, p.nodes, k)[n].status == Normal
  {
    if k > 0 && !(n == p.masters[k - 1].id && n != p.local.id) {
      MastersSetSound(p, k - 1, n);
    }
  }

  /** A claim is gone only if the message dropped it. */
  lemma ClaimsOnlyDropped(v: Viewer, claims: Claims, req: Req, n: int)
    requires ClaimedBySome(claims, n) && !ClaimedBySome(ClaimsLeft(v, claims, req), n)
    ensures n in Dropped(v, ClaimsFrom(claims, req.master), req)
  {
    var m :| m in claims && n in claims[m];
    var left := ClaimsLeft(v, claims, req);
    assert m in left && n !in left[m];
  }

  /** What is left is still claimed afterwards, and so is everything the message mentions. */
  lemma ClaimsLeftStay(v: Viewer, claims: Claims, req: Req, n: int)
    requires ClaimedBySome(ClaimsLeft(v, claims, req), n) || n in Noticed(v, req.infos)
    ensures ClaimedBySome(ClaimsAfter(v, claims, req), n)
  {
    var after := ClaimsAfter(v, claims, req);
    if n in Noticed(v, req.infos) {
      assert req.master in after && n in after[req.master];
    } else {
      var left := ClaimsLeft(v, claims, req);
      var m :| m in left && n in left[m];
      assert m in after && n in after[m];
    }
  }

  lemma MessageKeepsSound(p: Process, req: Req, up: set<int>)
    requires Sound(p)
    ensures Sound(Apply(p, Message(req, up)))
  {
    var q, v := Apply(p, Message(req, up)), ViewerOf(p);
    GatheredIsNoticed(v, req.infos);
    forall n | n in q.nodes
      ensures n == 0 || n == q.local.id || IsMaster(q.masters, n) || ClaimedBySome(q.claims, n) || n in q.deferred
      ensures q.nodes[n].status == Normal
    {
      if n in Noticed(v, req.infos) || ClaimedBySome(ClaimsLeft(v, p.claims, req), n) {
        ClaimsLeftStay(v, p.claims, req, n);
      } else {
        assert n in p.nodes;
        if ClaimedBySome(p.claims, n) { ClaimsOnlyDropped(v, p.claims, req, n); }
      }
    }
  }

  lemma EventKeepsSound(p: Process, e: Event)
    requires Sound(p)
    ensures Sound(Apply(p, e))
    ensures e.Disconnected? ==> Apply(p, e) == p
  {
    match e
    case AddMasters =>
      forall n | n in MastersSet(p.local.id, p.masters, p.nodes, |p.masters|)
        ensures n in p.nodes || IsMaster(p.masters, n)
        ensures MastersSet(p.local.id, p.masters, p.nodes, |p.masters|)[n].status == Normal
      {
        MastersSetSound(p, |p.masters|, n);
      }
    case Message(req, up) => MessageKeepsSound(p, req, up);
    case Disconnected(n) =>
  }

  function ApplyAll(p: Process, es: seq<Event>): (r: Process) {
    if es == [] then p else Apply(ApplyAll(p, es[..|es| - 1]), es[|es| - 1])
  }

  /** Claim soundness in every state that any sequence of events leads to. */
  lemma {:induction false} AlwaysSound(local: Node, masters: seq<Node>, interests: seq<Service>, es: seq<Event>)
    requires local.status == Normal && forall i :: 0 <= i < |masters| ==> masters[i].status == Normal
    ensures Sound(ApplyAll(Init(local, masters, interests), es))
  {
    if es != [] {
      AlwaysSound(local, masters, interests, es[..|es| - 1]);
      EventKeepsSound(ApplyAll(Init(local, masters, interests), es[..|es| - 1]), es[|es| - 1]);
    }
  }

  /** A node that disappears was dropped by the message, is claimed by no master once the deletions are made, was
      not connected, and is neither local nor a master; unless the same message also lists it, nobody claims it. */
  lemma OnlyUnclaimedDisappear(p: Process, req: Req, up: set<int>, n: int)
    requires n in p.nodes && n !in Apply(p, Message(req, up)).nodes
    ensures n in Dropped(ViewerOf(p), ClaimsFrom(p.claims, req.master), req) && n !in up
    ensures forall m :: m in p.claims && m != req.master ==> n !in p.claims[m]
    ensures n != p.local.id && !IsMaster(p.masters, n)
    ensures n !in Noticed(ViewerOf(p), req.infos) ==> !ClaimedBySome(Apply(p, Message(req, up)).claims, n)
  {
    var v := ViewerOf(p);
    var left := ClaimsLeft(v, p.claims, req);
    forall m | m in p.claims && m != req.master ensures n !in p.claims[m] {
      assert m in left && left[m] == p.claims[m];
    }
    if n !in Noticed(v, req.infos) {
      var after := ClaimsAfter(v, p.claims, req);
      forall m | m in after ensures n !in after[m] {
        assert m in left ==> n !in left[m];
      }
    }
  }

  ghost predicate Drops(p: Process, e: Event, n: int) {
    e.Message? && n in Dropped(ViewerOf(p), ClaimsFrom(p.claims, e.req.master), e.req)
  }

  ghost predicate Lists(p: Process, e: Event, n: int) {
    e.Message? && n in Noticed(ViewerOf(p), e.req.infos)
  }

  lemma {:induction false} MastersSetKeeps(local: int, masters: seq<Node>, nodes: map<int, Node>, k: nat)
    requires k <= |masters|
    ensures nodes.Keys <= MastersSet(local, masters, nodes, k).Keys
  {
    if k > 0 { MastersSetKeeps(local, masters, nodes, k - 1); }
  }

  lemma UndroppedStays(p: Process, e: Event, n: int)
    requires Sound(p) && n in p.nodes && !Drops(p, e, n)
    ensures n in Apply(p, e).nodes
    ensures n in p.deferred && !Lists(p, e, n) ==> n in Apply(p, e).deferred
  {
    MastersSetKeeps(p.local.id, p.masters, p.nodes, |p.masters|);
  }

  /** A node whose deletion was put off stays, whatever its connection does, until a later message drops it, and stays
      put off until a message lists it. */
  lemma {:induction false} PutOffStays(p: Process, es: seq<Event>, n: int)
    requires Sound(p) && n in p.nodes && n in p.deferred
    requires forall i :: 0 <= i < |es| ==> !Drops(ApplyAll(p, es[..i]), es[i], n)
    ensures Sound(ApplyAll(p, es)) && n in ApplyAll(p, es).nodes
    ensures (forall i :: 0 <= i < |es| ==> !Lists(ApplyAll(p, es[..i]), es[i], n)) ==> n in ApplyAll(p, es).deferred
    decreases |es|
  {
    hide Apply, Drops, Lists, Sound;
    if es != [] {
      var last := |es| - 1;
      assert forall i :: 0 <= i < last ==> es[..last][..i] == es[..i];
      PutOffStays(p, es[..last], n);
      EventKeepsSound(ApplyAll(p, es[..last]), es[last]);
      UndroppedStays(ApplyAll(p, es[..last]), es[last], n);
    }
  }
}
