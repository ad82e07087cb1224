/** Which peers and orderers go into a generated network config (networkconfig_controller.go, 349-453). */
module NetworkConfig {
  import opened Wrappers
  import opened Ordering

  datatype Peer = Peer(name: string, namespace: string, mspId: string, replicas: int)

  datatype PeerRef = PeerRef(name: string, namespace: string)

  datatype Orderer = Orderer(name: string, namespace: string, mspId: string)

  datatype OrgEntry = OrgEntry(mspId: string, peers: seq<Peer>, orderers: seq<Orderer>)

  /** `OrganizationConfig`: the peers each listed organization should expose. */
  type PeerLists = map<string, seq<PeerRef>>

  datatype Filter = Filter(organizations: seq<string>, namespaces: seq<string>)

  predicate Matches(p: Peer, r: PeerRef) {
    p.name == r.name && p.namespace == r.namespace
  }

  predicate Listed(refs: seq<PeerRef>, p: Peer) {
    exists r :: r in refs && Matches(p, r)
  }

  predicate HasList(lists: PeerLists, mspId: string) {
    mspId in lists && |lists[mspId]| > 0
  }

  // --------------------------------------------------------- the declared result

  /** Peers that survive the lists of the organizations in `done`, in whatever order those were applied. */
  predicate Survives(p: Peer, lists: PeerLists, done: set<string>) {
    (exists m :: m in done && HasList(lists, m)) ==>
      p.replicas > 0 && (p.mspId in done && HasList(lists, p.mspId) ==> Listed(lists[p.mspId], p))
  }

  /** Each listed peer belongs to the organization it is listed under. */
  ghost predicate OwnPeersListed(peers: seq<Peer>, lists: PeerLists) {
    forall m, p :: m in lists && p in peers && Listed(lists[m], p) ==> p.mspId == m
  }

  // -------------------------------------------------------------------- filters

  predicate AdmittedPeer(p: Peer, f: Filter) {
    && (|f.namespaces| > 0 ==> p.namespace in f.namespaces)
    && (|f.organizations| > 0 ==> p.replicas > 0 && p.mspId in f.organizations)
  }

  /** The admitted peers, in cluster order. */
  function AdmittedPeers(cluster: seq<Peer>, f: Filter): seq<Peer> {
    if |cluster| == 0 then []
    else
      var p := cluster[|cluster| - 1];
      AdmittedPeers(cluster[..|cluster| - 1], f) + (if AdmittedPeer(p, f) then [p] else [])
  }

  /**
   * Peers by namespace and organization, each as often as it is in the cluster and in that order; only the
   * organization filter looks at the replica count.
   */
  lemma {:induction false} AdmittedPeersInOrder(cluster: seq<Peer>, f: Filter) returns (at: seq<nat>)
    ensures Picks(AdmittedPeers(cluster, f), cluster, at)
    ensures forall k :: 0 <= k < |cluster| ==>
              (k in at <==>
                 && (|f.namespaces| > 0 ==> cluster[k].namespace in f.namespaces)
                 && (|f.organizations| > 0 ==> cluster[k].replicas > 0 && cluster[k].mspId in f.organizations))
  {
    if |cluster| == 0 {
      return [];
    }
    var front := cluster[..|cluster| - 1];
    var last := cluster[|cluster| - 1];
    at := AdmittedPeersInOrder(front, f);
    assert cluster == front + [last];
    PicksLonger(AdmittedPeers(front, f), front, at, last);
    if AdmittedPeer(last, f) {
      at := at + [|front|];
    }
  }

  method FilterPeers(cluster: seq<Peer>, f: Filter) returns (peers: seq<Peer>)
    ensures peers == AdmittedPeers(cluster, f)
  {
    var filterByOrgs := |f.organizations| > 0;
    var filterByNS := |f.namespaces| > 0;
    peers := [];
    for i := 0 to |cluster|
      invariant peers == AdmittedPeers(cluster[..i], f)
    {
      var peer := cluster[i];
      assert cluster[..i + 1][..i] == cluster[..i];
      if filterByNS && peer.namespace !in f.namespaces {
        continue;
      }
      if (peer.replicas > 0 && filterByOrgs && peer.mspId in f.organizations) || !filterByOrgs {
        peers := peers + [peer];
      }
    }
    assert cluster[..|cluster|] == cluster;
  }

  predicate Admitted(o: Orderer, f: Filter) {
    && (|f.namespaces| > 0 ==> o.namespace in f.namespaces)
    && (|f.organizations| > 0 ==> o.mspId in f.organizations)
  }

  /** The admitted orderers of one organization, in cluster order. */
  function OrderersOf(nodes: seq<Orderer>, f: Filter, mspId: string): seq<Orderer> {
    if |nodes| == 0 then []
    else
      var n := nodes[|nodes| - 1];
      OrderersOf(nodes[..|nodes| - 1], f, mspId) + (if Admitted(n, f) && n.mspId == mspId then [n] else [])
  }

  /** They are the orderers that pass both filters and belong to the organization, in cluster order. */
  lemma {:induction false} OrderersInOrder(nodes: seq<Orderer>, f: Filter, mspId: string) returns (at: seq<nat>)
    ensures Picks(OrderersOf(nodes, f, mspId), nodes, at)
    ensures forall k :: 0 <= k < |nodes| ==>
              (k in at <==>
                 && nodes[k].mspId == mspId
                 && (|f.namespaces| > 0 ==> nodes[k].namespace in f.namespaces)
                 && (|f.organizations| > 0 ==> nodes[k].mspId in f.organizations))
  {
    if |nodes| == 0 {
      return [];
    }
    var front := nodes[..|nodes| - 1];
    var last := nodes[|nodes| - 1];
    at := OrderersInOrder(front, f, mspId);
    assert nodes == front + [last];
    PicksLonger(OrderersOf(front, f, mspId), front, at, last);
    if Admitted(last, f) && last.mspId == mspId {
      at := at + [|front|];
    }
  }

  /** Organization `m` has its entry from before, if any, followed by its admitted orderers. */
  ghost predicate GroupedAt(r: map<string, OrgEntry>, orgs: map<string, OrgEntry>, nodes: seq<Orderer>, f: Filter,
                            m: string) {
    && (m in r <==> m in orgs || OrderersOf(nodes, f, m) != [])
    && (m in r ==>
          r[m] == if m in orgs then orgs[m].(orderers := orgs[m].orderers + OrderersOf(nodes, f, m))
                  else OrgEntry(m, [], OrderersOf(nodes, f, m)))
  }

  /** The entry of `m` after adding `n` to it. */
  function Joined(r: map<string, OrgEntry>, n: Orderer): OrgEntry {
    if n.mspId in r then r[n.mspId].(orderers := r[n.mspId].orderers + [n]) else OrgEntry(n.mspId, [], [n])
  }

  lemma OneMoreOrderer(r: map<string, OrgEntry>, orgs: map<string, OrgEntry>, front: seq<Orderer>, n: Orderer,
                       f: Filter, m: string)
    requires GroupedAt(r, orgs, front, f, m)
    ensures GroupedAt(if Admitted(n, f) then r[n.mspId := Joined(r, n)] else r, orgs, front + [n], f, m)
  {
    var before := OrderersOf(front, f, m);
    assert (front + [n])[..|front|] == front;
    if Admitted(n, f) && n.mspId == m {
      assert OrderersOf(front + [n], f, m) == before + [n];
      if m in orgs {
        assert orgs[m].orderers + before + [n] == orgs[m].orderers + (before + [n]);
      }
    } else {
      assert OrderersOf(front + [n], f, m) == before;
    }
  }

  lemma GroupsAfterOne(r: map<string, OrgEntry>, orgs: map<string, OrgEntry>, front: seq<Orderer>, n: Orderer,
                       f: Filter)
    requires forall m :: GroupedAt(r, orgs, front, f, m)
    ensures var next := if Admitted(n, f) then r[n.mspId := Joined(r, n)] else r;
            var all := front + [n];
            forall m :: GroupedAt(next, orgs, all, f, m)
  {
    var next := if Admitted(n, f) then r[n.mspId := Joined(r, n)] else r;
    var all := front + [n];
    forall m ensures GroupedAt(next, orgs, all, f, m) {
      OneMoreOrderer(r, orgs, front, n, f, m);
    }
  }

  lemma GroupsOfNone(orgs: map<string, OrgEntry>, f: Filter)
    ensures forall m :: GroupedAt(orgs, orgs, [], f, m)
  {
    forall m ensures GroupedAt(orgs, orgs, [], f, m) {
      assert OrderersOf([], f, m) == [];
      if m in orgs { assert orgs[m].orderers + [] == orgs[m].orderers; }
    }
  }

  /** Adds every admitted orderer to its organization, creating the organizations that have no peers. */
  method GroupOrderers(orgs: map<string, OrgEntry>, nodes: seq<Orderer>, f: Filter) returns (r: map<string, OrgEntry>)
    ensures forall m :: GroupedAt(r, orgs, nodes, f, m)
  {
    r := orgs;
    GroupsOfNone(orgs, f);
    for i := 0 to |nodes|
      invariant forall m :: GroupedAt(r, orgs, nodes[..i], f, m)
    {
      var node := nodes[i];
      assert nodes[..i + 1] == nodes[..i] + [node];
      GroupsAfterOne(r, orgs, nodes[..i], node, f);
      if |f.namespaces| > 0 && node.namespace !in f.namespaces {
        continue;
      }
      if (|f.organizations| > 0 && node.mspId in f.organizations) || |f.organizations| == 0 {
        if node.mspId in r {
          r := r[node.mspId := r[node.mspId].(orderers := r[node.mspId].orderers + [node])];
        } else {
          r := r[node.mspId := OrgEntry(node.mspId, [], [node])];
        }
      }
    }
    assert nodes[..|nodes|] == nodes;
  }

  // --------------------------------------------------------- the rewriting loop

  /** The inner double loop: running peers of the list, once per mention. */
  method SelectListed(refs: seq<PeerRef>, peers: seq<Peer>) returns (orgPeers: seq<Peer>)
    ensures forall p :: p in orgPeers <==> p in peers && p.replicas > 0 && Listed(refs, p)
  {
    orgPeers := [];
    for i := 0 to |refs|
      invariant forall p :: p in orgPeers <==> p in peers && p.replicas > 0 && Listed(refs[..i], p)
    {
      ghost var before := orgPeers;
      for j := 0 to |peers|
        invariant forall p :: p in orgPeers <==>
                  p in before || (p in peers[..j] && p.replicas > 0 && Matches(p, refs[i]))
      {
        assert peers[..j + 1] == peers[..j] + [peers[j]];
        if peers[j].name == refs[i].name && peers[j].namespace == refs[i].namespace && peers[j].replicas > 0 {
          orgPeers := orgPeers + [peers[j]];
        }
      }
      assert peers[..|peers|] == peers;
      assert refs[..i + 1] == refs[..i] + [refs[i]];
      assert refs[i] in refs[..i + 1];
      assert forall p :: Listed(refs[..i + 1], p) <==> Listed(refs[..i], p) || Matches(p, refs[i]);
    }
    assert refs[..|refs|] == refs;
  }

  method OtherRunning(peers: seq<Peer>, mspId: string) returns (rest: seq<Peer>)
    ensures forall p :: p in rest <==> p in peers && p.mspId != mspId && p.replicas > 0
  {
    rest := [];
    for i := 0 to |peers|
      invariant forall p :: p in rest <==> p in peers[..i] && p.mspId != mspId && p.replicas > 0
    {
      assert peers[..i + 1] == peers[..i] + [peers[i]];
      if peers[i].mspId != mspId && peers[i].replicas > 0 {
        rest := rest + [peers[i]];
      }
    }
    assert peers[..|peers|] == peers;
  }

  /** Applying one more list to the survivors keeps exactly the survivors of one more list. */
  lemma OneMoreList(p: Peer, lists: PeerLists, done: set<string>, m: string)
    requires HasList(lists, m) && m !in done
    ensures Survives(p, lists, done + {m}) <==>
              Survives(p, lists, done) && p.replicas > 0 && (p.mspId != m || Listed(lists[m], p))
  {
    assert m in done + {m};
  }

  // ------------------------------------------------------ one order of the lists

  predicate Once(order: seq<string>) {
    forall i, j :: 0 <= i < j < |order| ==> order[i] != order[j]
  }

  /** An order in which the program may take the lists. */
  ghost predicate IsOrder(order: seq<string>, lists: PeerLists) {
    Once(order) && forall m :: m in order <==> m in lists
  }

  /** The entry an organization receives when its list is applied to `pool`. */
  function EntryPeers(pool: set<Peer>, lists: PeerLists, m: string): set<Peer>
    requires m in lists
  {
    set p | p in pool && p.replicas > 0 && Listed(lists[m], p)
  }

  function Remaining(pool: set<Peer>, lists: PeerLists, m: string): set<Peer> {
    if HasList(lists, m) then set p | p in pool && p.replicas > 0 && (p.mspId != m || Listed(lists[m], p)) else pool
  }

  /** The peers left after the lists of `order`, one after the other. */
  function Pool(peers: set<Peer>, lists: PeerLists, order: seq<string>): set<Peer> {
    if |order| == 0 then peers
    else Remaining(Pool(peers, lists, order[..|order| - 1]), lists, order[|order| - 1])
  }

  function Position(order: seq<string>, m: string): (i: nat)
    requires m in order
    ensures i < |order| && order[i] == m && m !in order[..i]
  {
    if order[0] == m then 0 else 1 + Position(order[1..], m)
  }

  /** The entry of `m` under an order: its list applied to what the lists before it leave. */
  function EntryUnder(peers: set<Peer>, lists: PeerLists, order: seq<string>, m: string): set<Peer>
    requires m in order && m in lists
  {
    EntryPeers(Pool(peers, lists, order[..Position(order, m)]), lists, m)
  }

  function Members(s: seq<string>): set<string> {
    set x | x in s
  }

  lemma {:induction false} PoolIs(peers: set<Peer>, lists: PeerLists, order: seq<string>, p: Peer)
    requires Once(order)
    ensures p in Pool(peers, lists, order) <==> p in peers && Survives(p, lists, Members(order))
  {
    if |order| > 0 {
      var front := order[..|order| - 1];
      var m := order[|order| - 1];
      PoolIs(peers, lists, front, p);
      assert Members(order) == Members(front) + {m} by { assert order == front + [m]; }
      if HasList(lists, m) {
        assert m !in Members(front);
        OneMoreList(p, lists, Members(front), m);
      } else {
        assert Survives(p, lists, Members(order)) <==> Survives(p, lists, Members(front));
      }
    }
  }

  /** Of the running listed peers, `m` receives those not struck out before by the list of their own organization. */
  lemma EntryUnderIs(peers: set<Peer>, lists: PeerLists, order: seq<string>, m: string, p: Peer)
    requires IsOrder(order, lists) && m in lists
    ensures p in EntryUnder(peers, lists, order, m) <==>
              && p in peers && p.replicas > 0 && Listed(lists[m], p)
              && (HasList(lists, p.mspId) && p.mspId in order[..Position(order, m)] ==> Listed(lists[p.mspId], p))
  {
    var before := order[..Position(order, m)];
    PoolIs(peers, lists, before, p);
    assert p.mspId in Members(before) <==> p.mspId in before;
  }

  /** `m` lists a running peer of another organization whose own list leaves it out. */
  ghost predicate Disputes(peers: set<Peer>, lists: PeerLists, m: string, p: Peer)
    requires m in lists
  {
    && p in peers && p.replicas > 0 && Listed(lists[m], p)
    && p.mspId != m && HasList(lists, p.mspId) && !Listed(lists[p.mspId], p)
  }

  /** The entry of `m` under any order, when it disputes no peer. */
  lemma UndisputedEntry(peers: set<Peer>, lists: PeerLists, order: seq<string>, m: string)
    requires IsOrder(order, lists) && m in lists
    requires forall p :: p in peers ==> !Disputes(peers, lists, m, p)
    ensures EntryUnder(peers, lists, order, m) == EntryPeers(peers, lists, m)
  {
    forall p ensures p in EntryUnder(peers, lists, order, m) <==> p in EntryPeers(peers, lists, m) {
      EntryUnderIs(peers, lists, order, m, p);
      assert p in peers ==> !Disputes(peers, lists, m, p);
    }
  }

  /** The keys of the lists with `first` in front. */
  lemma OrderFrom(lists: PeerLists, first: string) returns (order: seq<string>)
    requires first in lists
    ensures IsOrder(order, lists) && |order| > 0 && order[0] == first
  {
    var rest := Enumerated(lists.Keys - {first});
    order := [first] + rest;
  }

  lemma {:induction false} Enumerated(s: set<string>) returns (order: seq<string>)
    ensures Once(order) && forall m :: m in order <==> m in s
  {
    if s == {} {
      return [];
    }
    var x :| x in s;
    var rest := Enumerated(s - {x});
    order := [x] + rest;
  }

  /** A disputed peer is in the entry when `m` goes first and not when the peer's own organization does. */
  lemma DisputeDependsOnOrder(peers: set<Peer>, lists: PeerLists, m: string, p: Peer)
    returns (one: seq<string>, two: seq<string>)
    requires m in lists && Disputes(peers, lists, m, p)
    ensures IsOrder(one, lists) && IsOrder(two, lists)
    ensures p in EntryUnder(peers, lists, one, m) && p !in EntryUnder(peers, lists, two, m)
  {
    one := OrderFrom(lists, m);
    two := OrderFrom(lists, p.mspId);
    EntryUnderIs(peers, lists, one, m, p);
    EntryUnderIs(peers, lists, two, m, p);
    assert two[..Position(two, m)][0] == p.mspId;
  }

  ghost predicate SameUnderAllOrders(peers: set<Peer>, lists: PeerLists, m: string)
    requires m in lists
  {
    forall one, two :: IsOrder(one, lists) && IsOrder(two, lists)
      ==> EntryUnder(peers, lists, one, m) == EntryUnder(peers, lists, two, m)
  }

  /** An organization's entry does not depend on the order of the lists exactly when it disputes no peer. */
  lemma EntryOrderFreeIff(peers: set<Peer>, lists: PeerLists, m: string)
    requires HasList(lists, m)
    ensures SameUnderAllOrders(peers, lists, m) <==> forall p :: p in peers ==> !Disputes(peers, lists, m, p)
  {
    if p :| p in peers && Disputes(peers, lists, m, p) {
      var one, two := DisputeDependsOnOrder(peers, lists, m, p);
      assert EntryUnder(peers, lists, one, m) != EntryUnder(peers, lists, two, m);
    } else {
      forall one, two | IsOrder(one, lists) && IsOrder(two, lists)
        ensures EntryUnder(peers, lists, one, m) == EntryUnder(peers, lists, two, m)
      {
        UndisputedEntry(peers, lists, one, m);
        UndisputedEntry(peers, lists, two, m);
      }
    }
  }

  /** The peers that remain in the end are the same under all orders, disputes or not. */
  lemma PoolOrderFree(peers: set<Peer>, lists: PeerLists, one: seq<string>, two: seq<string>)
    requires IsOrder(one, lists) && IsOrder(two, lists)
    ensures Pool(peers, lists, one) == Pool(peers, lists, two)
  {
    assert Members(one) == Members(two);
    forall p ensures p in Pool(peers, lists, one) <==> p in Pool(peers, lists, two) {
      PoolIs(peers, lists, one, p);
      PoolIs(peers, lists, two, p);
    }
  }

  const FOREIGN_PEER := Peer("p", "n", "B", 1)
  const FOREIGN_LISTS: PeerLists := map["A" := [PeerRef("p", "n")], "B" := [PeerRef("q", "n")]]

  /** A dispute is possible: `A` lists a peer of `B` that `B` leaves out. */
  lemma ForeignListingDependsOnOrder()
    ensures HasList(FOREIGN_LISTS, "A") && !SameUnderAllOrders({FOREIGN_PEER}, FOREIGN_LISTS, "A")
  {
    assert Matches(FOREIGN_PEER, PeerRef("p", "n")) && PeerRef("p", "n") in FOREIGN_LISTS["A"];
    assert !Listed(FOREIGN_LISTS["B"], FOREIGN_PEER);
    assert Disputes({FOREIGN_PEER}, FOREIGN_LISTS, "A", FOREIGN_PEER);
    EntryOrderFreeIff({FOREIGN_PEER}, FOREIGN_LISTS, "A");
  }

  // ------------------------------------------------------------------ the loop

  /** What the entry of a listed organization receives, when only its own peers are listed. */
  ghost predicate ExposesList(entry: OrgEntry, peers: seq<Peer>, lists: PeerLists, m: string)
    requires m in lists
  {
    forall p :: p in entry.peers <==> p in peers && p.mspId == m && p.replicas > 0 && Listed(lists[m], p)
  }

  function PeerSet(peers: seq<Peer>): set<Peer> {
    set p | p in peers
  }

  /** Every list taken so far has given its organization the entry of the order taken. */
  ghost predicate EntriesFollow(orgs: map<string, OrgEntry>, peers: set<Peer>, lists: PeerLists, order: seq<string>) {
    forall m :: m in order && HasList(lists, m) ==>
      m in orgs && PeerSet(orgs[m].peers) == EntryUnder(peers, lists, order, m)
  }

  lemma LaterListsKeepEntry(peers: set<Peer>, lists: PeerLists, order: seq<string>, next: string, m: string)
    requires m in order && m in lists && next !in order
    ensures m in order + [next] && EntryUnder(peers, lists, order + [next], m) == EntryUnder(peers, lists, order, m)
  {
    var i := Position(order, m);
    PositionUnique(order + [next], m, i);
    assert (order + [next])[..i] == order[..i];
  }

  lemma {:induction false} PositionUnique(order: seq<string>, m: string, i: nat)
    requires i < |order| && order[i] == m && m !in order[..i]
    ensures m in order && Position(order, m) == i
  {
    if i > 0 {
      assert order[..i][0] == order[0];
      assert order[1..][..i - 1] == order[..i][1..];
      PositionUnique(order[1..], m, i - 1);
    }
  }

  lemma NextEntry(peers: set<Peer>, lists: PeerLists, order: seq<string>, m: string)
    requires m !in order && m in lists
    ensures m in order + [m] && EntryUnder(peers, lists, order + [m], m)
              == EntryPeers(Pool(peers, lists, order), lists, m)
    ensures Pool(peers, lists, order + [m]) == Remaining(Pool(peers, lists, order), lists, m)
  {
    assert (order + [m])[..|order|] == order;
    PositionUnique(order + [m], m, |order|);
  }

  lemma EntriesFollowNext(orgs: map<string, OrgEntry>, after: map<string, OrgEntry>, peers: set<Peer>, lists: PeerLists,
                          order: seq<string>, m: string)
    requires EntriesFollow(orgs, peers, lists, order) && m !in order && m in lists
    requires orgs.Keys <= after.Keys && forall n :: n in orgs && n != m ==> after[n] == orgs[n]
    requires HasList(lists, m) ==>
               m in after && PeerSet(after[m].peers) == EntryPeers(Pool(peers, lists, order), lists, m)
    ensures EntriesFollow(after, peers, lists, order + [m])
  {
    NextEntry(peers, lists, order, m);
    forall n | n in order + [m] && HasList(lists, n)
      ensures n in after && PeerSet(after[n].peers) == EntryUnder(peers, lists, order + [m], n)
    {
      if n != m { LaterListsKeepEntry(peers, lists, order, m, n); }
    }
  }

  lemma OneListApplied(peers: seq<Peer>, orgPeers: seq<Peer>, rest: seq<Peer>, lists: PeerLists, m: string)
    requires HasList(lists, m)
    requires forall p :: p in orgPeers <==> p in peers && p.replicas > 0 && Listed(lists[m], p)
    requires forall p :: p in rest <==> p in peers && p.mspId != m && p.replicas > 0
    ensures PeerSet(orgPeers) == EntryPeers(PeerSet(peers), lists, m)
    ensures PeerSet(rest + orgPeers) == Remaining(PeerSet(peers), lists, m)
  {
  }

  /**
   * The lists are taken in an `order` the program does not choose; the entries are those of that order, and the
   * remaining peers those of any. A list for an unknown organization dereferences a nil entry: `None`.
   */
  method ApplyLists(peers0: seq<Peer>, lists: PeerLists, orgs0: map<string, OrgEntry>)
    returns (r: Option<(seq<Peer>, map<string, OrgEntry>)>, ghost order: seq<string>)
    ensures r.Some? <==> forall m :: HasList(lists, m) ==> m in orgs0
    ensures r.Some? ==> forall p :: p in r.value.0 <==> p in peers0 && Survives(p, lists, lists.Keys)
    ensures r.Some? && (forall m :: !HasList(lists, m)) ==> forall p :: p in r.value.0 <==> p in peers0
    ensures r.Some? && (exists m :: HasList(lists, m)) ==> forall p :: p in r.value.0 <==>
              p in peers0 && p.replicas > 0 && (HasList(lists, p.mspId) ==> Listed(lists[p.mspId], p))
    ensures r.Some? ==> r.value.1.Keys == orgs0.Keys
    ensures r.Some? ==> forall m :: m in orgs0 && !HasList(lists, m) ==> r.value.1[m] == orgs0[m]
    ensures r.Some? ==> IsOrder(order, lists) && EntriesFollow(r.value.1, PeerSet(peers0), lists, order)
    ensures r.Some? && OwnPeersListed(peers0, lists) ==>
              forall m :: HasList(lists, m) ==>
                && ExposesList(r.value.1[m], peers0, lists, m)
                && forall p :: p in r.value.1[m].peers <==> p in r.value.0 && p.mspId == m
  {
    var peers, orgs := peers0, orgs0;
    var rest := lists.Keys;
    order := [];
    while rest != {}
      invariant rest <= lists.Keys && Once(order)
      invariant forall m :: m in order <==> m in lists && m !in rest
      invariant PeerSet(peers) == Pool(PeerSet(peers0), lists, order)
      invariant orgs.Keys == orgs0.Keys
      invariant forall m :: m in orgs0 && (m in rest || !HasList(lists, m)) ==> orgs[m] == orgs0[m]
      invariant EntriesFollow(orgs, PeerSet(peers0), lists, order)
      decreases rest
    {
      var mspId :| mspId in rest;
      ghost var before := orgs;
      NextEntry(PeerSet(peers0), lists, order, mspId);
      if |lists[mspId]| > 0 {
        var orgPeers := SelectListed(lists[mspId], peers);
        var restPeerOrgs := OtherRunning(peers, mspId);
        OneListApplied(peers, orgPeers, restPeerOrgs, lists, mspId);
        peers := restPeerOrgs + orgPeers;
        if mspId !in orgs {
          return None, order;
        }
        orgs := orgs[mspId := orgs[mspId].(peers := orgPeers)];
      }
      EntriesFollowNext(before, orgs, PeerSet(peers0), lists, order, mspId);
      rest := rest - {mspId};
      order := order + [mspId];
    }
    FinalPeers(peers0, peers, lists, order);
    if OwnPeersListed(peers0, lists) {
      OwnEntries(peers0, orgs, lists, order);
    }
    return Some((peers, orgs)), order;
  }

  lemma FinalPeers(peers0: seq<Peer>, peers: seq<Peer>, lists: PeerLists, order: seq<string>)
    requires IsOrder(order, lists) && PeerSet(peers) == Pool(PeerSet(peers0), lists, order)
    ensures forall p :: p in peers <==> p in peers0 && Survives(p, lists, lists.Keys)
  {
    assert Members(order) == lists.Keys;
    forall p ensures p in peers <==> p in peers0 && Survives(p, lists, lists.Keys) {
      PoolIs(PeerSet(peers0), lists, order, p);
      assert p in peers <==> p in PeerSet(peers);
      assert p in peers0 <==> p in PeerSet(peers0);
    }
  }

  lemma OwnEntries(peers0: seq<Peer>, orgs: map<string, OrgEntry>, lists: PeerLists, order: seq<string>)
    requires IsOrder(order, lists) && OwnPeersListed(peers0, lists)
    requires EntriesFollow(orgs, PeerSet(peers0), lists, order)
    ensures forall m :: HasList(lists, m) ==> m in orgs && ExposesList(orgs[m], peers0, lists, m)
  {
    forall m | HasList(lists, m) ensures m in orgs && ExposesList(orgs[m], peers0, lists, m) {
      UndisputedEntry(PeerSet(peers0), lists, order, m);
      forall p ensures p in orgs[m].peers <==> p in peers0 && p.mspId == m && p.replicas > 0 && Listed(lists[m], p) {
        assert p in orgs[m].peers <==> p in PeerSet(orgs[m].peers);
        assert p in peers0 <==> p in PeerSet(peers0);
      }
    }
  }
}
