/** What a reconcile leaves behind, in the spec's own fields and those of the channel before it. */
module Delivery {
  import opened Wrappers
  import opened HostPort
  import opened ChannelConfig
  import opened ChannelSpec
  import opened Consenters
  import opened ChannelUpdate
  import opened OrdererOrgs

  /** The organization of this name that comes last in the spec. */
  ghost predicate IsLastNamed(w: Organization, wants: seq<Organization>, name: string) {
    exists k :: 0 <= k < |wants| && wants[k] == w && w.name == name
                && forall j :: k < j < |wants| ==> wants[j].name != name
  }

  lemma {:induction false} LastNamedIsLast(wants: seq<Organization>, name: string)
    requires name in Names(wants)
    ensures IsLastNamed(LastNamed(wants, name), wants, name)
  {
    var n := |wants| - 1;
    if wants[n].name == name {
      assert wants[n] == LastNamed(wants, name);
    } else {
      var front := wants[..n];
      assert wants == front + [wants[n]];
      LastNamedIsLast(front, name);
      var w := LastNamed(front, name);
      var k :| 0 <= k < n && front[k] == w && forall j :: k < j < n ==> front[j].name != name;
      assert wants[k] == w;
      assert forall j :: k < j < n ==> wants[j] == front[j];
    }
  }

  ghost predicate NamesAre(orgs: Organizations, wants: seq<Organization>) {
    forall n :: n in orgs <==> exists w :: w in wants && w.name == n
  }

  // -------------------------------------------------------------- application

  /** Kept organizations as they were, new ones as wanted; ACLs the spec does not name as they were. */
  ghost predicate ApplicationDelivered(a: ApplicationGroup, w: WantedApplication, b: ApplicationGroup) {
    && NamesAre(b.orgs, w.orgs)
    && (forall n :: n in b.orgs ==> if n in a.orgs then b.orgs[n] == a.orgs[n] else IsLastNamed(b.orgs[n], w.orgs, n))
    && b.policies == w.policies
    && (forall x :: x in b.capabilities <==> x in w.capabilities)
    && (w.acls.None? ==> b.acls == a.acls)
    && (w.acls.Some? ==> forall k ::
          && (k in b.acls <==> k in a.acls || k in w.acls.value)
          && (k in b.acls ==> b.acls[k] == if k in w.acls.value then w.acls.value[k] else a.acls[k]))
  }

  lemma ApplicationDelivers(a: ApplicationGroup, w: WantedApplication)
    ensures ApplicationDelivered(a, w, ApplicationAfter(a, w))
  {
    var b := ApplicationAfter(a, w);
    assert b.orgs.Keys == Names(w.orgs);
    forall n | n in b.orgs && n !in a.orgs ensures IsLastNamed(b.orgs[n], w.orgs, n) {
      LastNamedIsLast(w.orgs, n);
    }
  }

  // ------------------------------------------------------------------- orderer

  ghost predicate DistinctAddresses(cs: seq<SpecConsenter>) {
    forall a, b :: a in cs && b in cs && a.host == b.host && a.port == b.port ==> a == b
  }

  /** Type, metadata and mapping are the spec's; a raft spec leaves the mapping alone. */
  ghost predicate ConsensusDelivered(o: OrdererGroup, s: Spec, p: OrdererGroup) {
    && (s.ordererType == BFT ==> p.consensus == Bft(s.smartOptions) && p.mapping == s.mapping)
    && (s.ordererType == ETCDRAFT ==>
          && o.consensus.Raft? && p.consensus.Raft? && p.consensus.options == s.raftOptions && p.mapping == o.mapping
          && (DistinctAddresses(s.consenters) ==> forall x :: x in p.consensus.consenters <==>
                x.serverCert == x.clientCert && SpecConsenter(x.host, x.port, x.clientCert) in s.consenters))
  }

  const REPLACED := {"Admins", "Writers", "Readers"}

  /** Where a policy comes from: a channel that is BFT already gets three, and only those. */
  ghost predicate PolicyDelivered(o: OrdererGroup, s: Spec, p: OrdererGroup, name: string) {
    if s.ordererType == BFT && o.consensus.Bft? && name in REPLACED then
      name in p.policies &&
      p.policies[name] == (if name in s.ordererPolicies then s.ordererPolicies[name] else Policy("", ""))
    else
      var origin := if s.ordererType == BFT then o.policies else s.ordererPolicies;
      (name in p.policies <==> name in origin) && (name in p.policies ==> p.policies[name] == origin[name])
  }

  /** A kept organization's endpoints: those it had that are not in stored form, and the stored forms of the wanted. */
  ghost predicate EndpointsDelivered(had: seq<string>, wanted: seq<string>, has: seq<string>) {
    forall e :: e in has <==> (e in had && !Canonical(e)) || exists x :: x in wanted && Parse(x).Ok? && Stored(x) == e
  }

  /** Of a kept organization endpoints and revocations change and nothing else; a new one is as wanted. */
  ghost predicate OrdererOrgDelivered(orgs: Organizations, wants: seq<Organization>, after: Organizations, n: string)
    requires n in after
  {
    exists w :: IsLastNamed(w, wants, n) &&
      if n in orgs then
        && after[n] == orgs[n].(endpoints := after[n].endpoints, msp := orgs[n].msp.(revocations := w.msp.revocations))
        && EndpointsDelivered(orgs[n].endpoints, w.endpoints, after[n].endpoints)
      else after[n] == w
  }

  ghost predicate OrdererDelivered(o: OrdererGroup, s: Spec, p: OrdererGroup) {
    && p.state == (if s.state == STATE_MAINTENANCE then Maintenance else Normal)
    && ConsensusDelivered(o, s, p)
    && (forall name :: PolicyDelivered(o, s, p, name))
    && NamesAre(p.orgs, s.ordererOrgs)
    && (OrgsReady(o.orgs, s.ordererOrgs) ==>
          forall n :: n in p.orgs ==> OrdererOrgDelivered(o.orgs, s.ordererOrgs, p.orgs, n))
    && p.batchSize == s.batchSize && p.batchTimeout == s.batchTimeout
    && (forall x :: x in p.capabilities <==> x in o.capabilities || x in s.ordererCapabilities)
  }

  lemma SpecConsentersUnique(cs: seq<SpecConsenter>)
    requires DistinctAddresses(cs)
    ensures AddressUnique(ToConsenters(cs))
  {
    var us := ToConsenters(cs);
    forall a, b | a in us && b in us && SameAddress(a, b) ensures a == b {
      var i :| 0 <= i < |cs| && us[i] == a;
      var j :| 0 <= j < |cs| && us[j] == b;
      assert cs[i] in cs && cs[j] in cs;
    }
  }

  lemma SpecConsenterMembers(cs: seq<SpecConsenter>, x: Consenter)
    ensures x in ToConsenters(cs) <==> x.serverCert == x.clientCert && SpecConsenter(x.host, x.port, x.clientCert) in cs
  {
    if x in ToConsenters(cs) {
      var i :| 0 <= i < |cs| && ToConsenters(cs)[i] == x;
      assert cs[i] in cs;
    }
    if x.serverCert == x.clientCert && SpecConsenter(x.host, x.port, x.clientCert) in cs {
      var i :| 0 <= i < |cs| && cs[i] == SpecConsenter(x.host, x.port, x.clientCert);
      assert ToConsenters(cs)[i] == x;
    }
  }

  lemma ConsensusDelivers(o: OrdererGroup, s: Spec)
    requires ToWanted(s).Ok? && OrdererAfter(o, ToWanted(s).value.orderer).Ok?
    ensures ConsensusDelivered(o, s, OrdererAfter(o, ToWanted(s).value.orderer).value)
  {
    if s.ordererType == ETCDRAFT && DistinctAddresses(s.consenters) {
      SpecConsentersUnique(s.consenters);
      ConsentersExact(o.consensus.consenters, ToConsenters(s.consenters));
      forall x: Consenter {
        SpecConsenterMembers(s.consenters, x);
      }
    }
  }

  lemma PolicyDelivers(o: OrdererGroup, s: Spec, name: string)
    requires ToWanted(s).Ok? && OrdererAfter(o, ToWanted(s).value.orderer).Ok?
    ensures PolicyDelivered(o, s, OrdererAfter(o, ToWanted(s).value.orderer).value, name)
  {
  }

  lemma EndpointsDeliver(had: seq<string>, wanted: seq<string>)
    requires Parses(had) && Storable(wanted)
    ensures EndpointsDelivered(had, wanted, Leftover(had) + Fresh(wanted))
  {
    AddShape([], wanted);
    ExceptMembers(had, StoredForms(had));
    forall e | e in had ensures e in StoredForms(had) <==> Canonical(e) {
      if Canonical(e) { assert Stored(e) == e; }
      if e in StoredForms(had) {
        var d :| d in had && Stored(d) == e;
        StoredFormReadable(d);
        PrintedIsCanonical(d);
      }
    }
    forall e ensures e in Fresh(wanted) <==> exists x :: x in wanted && Parse(x).Ok? && Stored(x) == e {
      if x :| x in wanted && Parse(x).Ok? && Stored(x) == e {
        assert x in wanted && Stored(x) == e;
      }
    }
  }

  lemma OrdererOrgDelivers(orgs: Organizations, wants: seq<Organization>, n: string)
    requires OrgsReady(orgs, wants) && OrdererOrgsAfter(orgs, wants).Ok? && n in OrdererOrgsAfter(orgs, wants).value
    ensures OrdererOrgDelivered(orgs, wants, OrdererOrgsAfter(orgs, wants).value, n)
  {
    OrgsAfterShape(orgs, wants);
    var after := OrdererOrgsAfter(orgs, wants).value;
    assert UpdatedAt(orgs, wants, after, n);
    var w := LastNamed(wants, n);
    LastNamedIsLast(wants, n);
    if n in orgs {
      RefreshShape(orgs[n], w);
      EndpointsDeliver(orgs[n].endpoints, w.endpoints);
    }
  }

  lemma OrdererDelivers(o: OrdererGroup, s: Spec)
    requires ToWanted(s).Ok? && OrdererAfter(o, ToWanted(s).value.orderer).Ok?
    ensures OrdererDelivered(o, s, OrdererAfter(o, ToWanted(s).value.orderer).value)
  {
    var p := OrdererAfter(o, ToWanted(s).value.orderer).value;
    ConsensusDelivers(o, s);
    forall name ensures PolicyDelivered(o, s, p, name) {
      PolicyDelivers(o, s, name);
    }
    assert p.orgs.Keys == Names(s.ordererOrgs);
    if OrgsReady(o.orgs, s.ordererOrgs) {
      forall n | n in p.orgs ensures OrdererOrgDelivered(o.orgs, s.ordererOrgs, p.orgs, n) {
        OrdererOrgDelivers(o.orgs, s.ordererOrgs, n);
      }
    }
  }

  // --------------------------------------------------------------- the channel

  /** A spec the operator can map: raft, or BFT with more than four consenters. */
  predicate Mappable(s: Spec) {
    s.ordererType == ETCDRAFT || (s.ordererType == BFT && |s.mapping| > 4)
  }

  /** The channel `d` that a reconcile of `s` makes of `c`. */
  ghost predicate Delivered(c: Channel, s: Spec, d: Channel) {
    && OrdererDelivered(c.orderer, s, d.orderer)
    && (if c.orderer.state == Normal && d.orderer.state == Maintenance then d.capabilities == c.capabilities
        else forall x :: x in d.capabilities <==> x in s.capabilities)
    && (if c.orderer.state == Normal && d.orderer.state == Normal then
          ApplicationDelivered(c.application, s.application, d.application)
        else d.application == c.application)
  }

  /** What stops a mapped spec: going back to raft, or an endpoint that cannot be read on an organization kept. */
  ghost predicate Obstructed(c: Channel, s: Spec) {
    || (s.ordererType == ETCDRAFT && c.orderer.consensus.Bft?)
    || exists w :: w in s.ordererOrgs && w.name in c.orderer.orgs &&
         !(Parses(c.orderer.orgs[w.name].endpoints) && Parses(w.endpoints))
  }

  lemma FailsIffObstructed(c: Channel, s: Spec)
    requires ToWanted(s).Ok? && DistinctNames(s.ordererOrgs)
    ensures Reconcile(c, ToWanted(s).value).Err? <==> Obstructed(c, s)
  {
    OrdererOrgsFailOnlyOnBadEndpoints(c.orderer.orgs, s.ordererOrgs);
  }

  lemma MappableIff(s: Spec)
    ensures ToWanted(s).Ok? <==> Mappable(s)
  {
  }

  /** Whatever a reconcile submits, or finds in place already, is what its spec asks for. */
  lemma ReconcileDelivers(c: Channel, s: Spec)
    requires ToWanted(s).Ok? && Reconcile(c, ToWanted(s).value).Ok?
    ensures Delivered(c, s, Reconcile(c, ToWanted(s).value).value)
  {
    OrdererDelivers(c.orderer, s);
    ApplicationDelivers(c.application, s.application);
  }
}
