/** What a list from a master does, said entry by entry and without the functions of DiscoverySpec
    (cluster/dynamicdiscovery.go). */
module DiscoveryMeaning {
  import opened ClusterSpec
  import opened DiscoverySpec

  /** Who gets the list: the local id, the configured masters and the services of interest, and which connections
      are up. */
  datatype Reader = Reader(local: int, masters: seq<Node>, interests: seq<Service>, up: set<int>)

  ghost predicate Configured(masters: seq<Node>, n: int) {
    exists j :: 0 <= j < |masters| && masters[j].id == n
  }

  /** Not of itself, nor of nodes that offer nothing, nor, unless it is a master, of nodes that merely run the
      discovery client. */
  ghost predicate Heard(r: Reader, x: Info) {
    x.id != r.local && |x.publics| > 0 && (Configured(r.masters, r.local) || x.publics != ["DiscoveryClient"])
  }

  ghost predicate Mentioned(r: Reader, infos: seq<Info>, n: int) {
    exists i :: 0 <= i < |infos| && infos[i].id == n && Heard(r, infos[i])
  }

  /** Some entry of the node lists the service, and it is of interest; without interests every service is. */
  ghost predicate Offered(r: Reader, infos: seq<Info>, n: int, s: Service) {
    && (r.interests == [] || s in r.interests)
    && exists i :: 0 <= i < |infos| && infos[i].id == n && Heard(r, infos[i]) && s in infos[i].publics
  }

  ghost predicate First(r: Reader, infos: seq<Info>, n: int, i: nat) {
    && i < |infos| && infos[i].id == n && Heard(r, infos[i])
    && forall k :: 0 <= k < i && infos[k].id == n ==> !Heard(r, infos[k])
  }

  ghost predicate Claimant(claims: Claims, m: int, n: int) {
    m in claims && n in claims[m]
  }

  /** The message takes the node away from its master: it names the node as gone, or is full and does not list it. */
  ghost predicate Withdrawn(r: Reader, req: Req, claims: Claims, n: int) {
    || (n == req.del && req.del > 0 && n != r.local)
    || (req.full && Claimant(claims, req.master, n) && !Mentioned(r, req.infos, n))
  }

  /** The claims: those of other masters stay; from the sender everything listed is claimed, and besides, unless the
      list is full, what was claimed and is not named as gone. */
  ghost predicate ClaimsDone(r: Reader, req: Req, claims: Claims, after: Claims) {
    && (forall m :: m != req.master ==> (m in after <==> m in claims) && (m in claims ==> after[m] == claims[m]))
    && (forall n :: Claimant(after, req.master, n) <==>
          || Mentioned(r, req.infos, n)
          || (!req.full && Claimant(claims, req.master, n) && !(n == req.del && req.del > 0 && n != r.local)))
  }

  /** A node of which some service is offered is known with exactly these services and the address of its first
      entry. */
  ghost predicate NodeSet(r: Reader, infos: seq<Info>, n: int, nodes: map<int, Node>) {
    && n in nodes && nodes[n].id == n && nodes[n].status == Normal
    && (forall s :: s in nodes[n].publics <==> Offered(r, infos, n, s))
    && (forall s :: s in nodes[n].services <==> Offered(r, infos, n, s))
    && forall i :: 0 <= i < |infos| && First(r, infos, n, i) ==> nodes[n].addr == infos[i].addr
  }

  /** The node goes: withdrawn, claimed by no other master, and neither local, master nor connected. */
  ghost predicate Goes(r: Reader, req: Req, claims: Claims, n: int) {
    && n != 0 && n != r.local && !Configured(r.masters, n) && n !in r.up && Withdrawn(r, req, claims, n)
    && forall m :: m != req.master ==> !Claimant(claims, m, n)
  }

  ghost predicate NodesDone(r: Reader, req: Req, claims: Claims, nodes: map<int, Node>, after: map<int, Node>) {
    forall n ::
      if exists s :: Offered(r, req.infos, n, s) then NodeSet(r, req.infos, n, after)
      else (n in after <==> n in nodes && !Goes(r, req, claims, n)) && (n in after ==> after[n] == nodes[n])
  }

  // Part 1: The entries.

  ghost function ViewerOf(r: Reader): (v: Viewer) {
    Viewer(r.local, IsMaster(r.masters, r.local))
  }

  lemma MasterMeaning(masters: seq<Node>, n: int)
    ensures IsMaster(masters, n) <==> Configured(masters, n)
  {
  }

  lemma NoticesMeaning(r: Reader, x: Info)
    ensures Notices(ViewerOf(r), x) <==> Heard(r, x)
  {
    MasterMeaning(r.masters, r.local);
  }

  lemma NoticedMeaning(r: Reader, infos: seq<Info>, n: int)
    ensures n in Noticed(ViewerOf(r), infos) <==> Mentioned(r, infos, n)
  {
    hide Notices, Heard;
    if n in Noticed(ViewerOf(r), infos) {
      var x :| x in infos && Notices(ViewerOf(r), x) && x.id == n;
      var i :| 0 <= i < |infos| && infos[i] == x;
      NoticesMeaning(r, x);
    }
    if Mentioned(r, infos, n) {
      var i :| 0 <= i < |infos| && infos[i].id == n && Heard(r, infos[i]);
      NoticesMeaning(r, infos[i]);
      assert infos[i] in infos;
    }
  }

  /** Some entry of the node lists the service. */
  ghost predicate Listed(r: Reader, infos: seq<Info>, n: int, s: Service) {
    exists i :: 0 <= i < |infos| && infos[i].id == n && Heard(r, infos[i]) && s in infos[i].publics
  }

  lemma {:induction false} GatheredServices(r: Reader, infos: seq<Info>, n: int, s: Service)
    ensures n in Gathered(ViewerOf(r), infos) && s in Gathered(ViewerOf(r), infos)[n].publics <==> Listed(r, infos, n, s)
  {
    if infos != [] {
      hide Notices, Heard;
      var last := |infos| - 1;
      GatheredServices(r, infos[..last], n, s);
      NoticesMeaning(r, infos[last]);
      forall i | 0 <= i < last ensures infos[..last][i] == infos[i] {
      }
      if Listed(r, infos[..last], n, s) {
        var i :| 0 <= i < last && infos[..last][i].id == n && Heard(r, infos[..last][i]) && s in infos[..last][i].publics;
        assert infos[i].id == n && Heard(r, infos[i]) && s in infos[i].publics;
      }
    }
  }

  lemma {:induction false} GatheredAddress(r: Reader, infos: seq<Info>, n: int, i: nat)
    requires First(r, infos, n, i)
    ensures n in Gathered(ViewerOf(r), infos) && Gathered(ViewerOf(r), infos)[n].addr == infos[i].addr
  {
    hide Notices, Heard;
    var last := |infos| - 1;
    NoticesMeaning(r, infos[last]);
    if i < last {
      GatheredAddress(r, infos[..last], n, i);
    } else {
      GatheredIsNoticed(ViewerOf(r), infos[..last]);
      NoticedMeaning(r, infos[..last], n);
    }
  }

  // Part 2: The services.

  lemma WantedMeaning(publics: seq<Service>, interests: seq<Service>, s: Service)
    ensures s in Wanted(publics, interests) <==> s in publics && (interests == [] || s in interests)
  {
    if interests != [] {
      PickedMeaning(publics, interests, |publics|, s);
      assert publics[..|publics|] == publics;
    }
  }

  lemma FreshMeaning(r: Reader, infos: seq<Info>, n: int)
    ensures var added := Fresh(Gathered(ViewerOf(r), infos), r.interests);
            if exists s :: Offered(r, infos, n, s) then NodeSet(r, infos, n, added) else n !in added
  {
    hide Wanted, Heard, Notices;
    var g := Gathered(ViewerOf(r), infos);
    forall s ensures n in g && s in Wanted(g[n].publics, r.interests) <==> Offered(r, infos, n, s) {
      GatheredServices(r, infos, n, s);
      if n in g { WantedMeaning(g[n].publics, r.interests, s); }
    }
    forall i | 0 <= i < |infos| && First(r, infos, n, i) ensures n in g && g[n].addr == infos[i].addr {
      GatheredAddress(r, infos, n, i);
    }
    if n in g && Wanted(g[n].publics, r.interests) != [] {
      assert Offered(r, infos, n, Wanted(g[n].publics, r.interests)[0]);
    }
  }

  // Part 3: Claims and nodes.

  lemma ClaimsMeaning(r: Reader, req: Req, claims: Claims)
    ensures ClaimsDone(r, req, claims, ClaimsAfter(ViewerOf(r), claims, req))
  {
    hide Noticed;
    var v := ViewerOf(r);
    forall n ensures n in Noticed(v, req.infos) <==> Mentioned(r, req.infos, n) { NoticedMeaning(r, req.infos, n); }
  }

  lemma DeletedMeaning(r: Reader, req: Req, claims: Claims, nodes: map<int, Node>, n: int)
    ensures n in Deleted(ViewerOf(r), r.masters, claims, nodes, r.up, req) <==> n in nodes && Goes(r, req, claims, n)
  {
    hide Noticed, Mentioned, Configured, IsMaster;
    var v := ViewerOf(r);
    NoticedMeaning(r, req.infos, n);
    MasterMeaning(r.masters, n);
    var left := ClaimsLeft(v, claims, req);
    if n in Dropped(v, ClaimsFrom(claims, req.master), req) {
      if ClaimedBySome(left, n) {
        var m :| m in left && n in left[m];
        assert m != req.master && Claimant(claims, m, n);
      } else {
        forall m | m != req.master ensures !Claimant(claims, m, n) {
          assert m in claims ==> m in left && left[m] == claims[m];
        }
      }
    }
  }

  /** What the specification functions say of a message is what happens to each claim and to each node. */
  lemma MessageMeaning(r: Reader, req: Req, claims: Claims, nodes: map<int, Node>)
    ensures ClaimsDone(r, req, claims, ClaimsAfter(ViewerOf(r), claims, req))
    ensures NodesDone(r, req, claims, nodes,
                      NodesAfter(ViewerOf(r), r.masters, r.interests, claims, nodes, r.up, req))
  {
    hide Deleted, Fresh, Gathered, Goes, Offered, NodeSet, ClaimsDone, ClaimsAfter;
    ClaimsMeaning(r, req, claims);
    var v := ViewerOf(r);
    var after, added := NodesAfter(v, r.masters, r.interests, claims, nodes, r.up, req),
                        Fresh(Gathered(v, req.infos), r.interests);
    forall n
      ensures if exists s :: Offered(r, req.infos, n, s) then NodeSet(r, req.infos, n, after)
              else (n in after <==> n in nodes && !Goes(r, req, claims, n)) && (n in after ==> after[n] == nodes[n])
    {
      FreshMeaning(r, req.infos, n);
      DeletedMeaning(r, req, claims, nodes, n);
      if NodeSet(r, req.infos, n, added) { SameNodeSet(r, req.infos, n, added, after); }
    }
  }

  lemma SameNodeSet(r: Reader, infos: seq<Info>, n: int, nodes: map<int, Node>, after: map<int, Node>)
    requires NodeSet(r, infos, n, nodes) && (n in nodes ==> n in after && after[n] == nodes[n])
    ensures NodeSet(r, infos, n, after) && n in nodes
  {
  }
}
