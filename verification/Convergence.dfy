/** For a fixed spec two reconciles reach a fixpoint from any channel configuration; the third changes nothing. */
module Convergence {
  import opened Wrappers
  import opened ChannelConfig
  import opened Consenters
  import opened ChannelUpdate
  import opened OrdererOrgs

  /** The orderer group can be brought in line: no downgrade, distinct consenter addresses, readable endpoints. */
  ghost predicate OrdererReady(o: OrdererGroup, w: WantedOrderer) {
    && (w.consensus.WantRaft? ==> o.consensus.Raft? && AddressUnique(w.consensus.consenters))
    && OrgsReady(o.orgs, w.orgs)
  }

  /** One pass of the orderer update that is ready succeeds and leaves a group that is ready. */
  lemma OrdererPass(o: OrdererGroup, w: WantedOrderer)
    requires OrdererReady(o, w)
    ensures OrdererAfter(o, w).Ok? && OrdererReady(OrdererAfter(o, w).value, w)
  {
    OrgsAfterParse(o.orgs, w.orgs);
  }

  lemma PoliciesSettle(p: map<string, Policy>, a: Policy, b: Policy, c: Policy)
    ensures var q := p["Admins" := a]["Writers" := b]["Readers" := c];
            q["Admins" := a]["Writers" := b]["Readers" := c] == q
  {
  }

  /** The orderer group is stable from the second pass on. */
  lemma OrdererSettles(o: OrdererGroup, w: WantedOrderer)
    requires OrdererAfter(o, w).Ok? && OrdererReady(OrdererAfter(o, w).value, w)
    ensures OrdererAfter(OrdererAfter(o, w).value, w).Ok?
    ensures var twice := OrdererAfter(OrdererAfter(o, w).value, w).value; OrdererAfter(twice, w) == Ok(twice)
  {
    var once := OrdererAfter(o, w).value;
    OrdererPass(once, w);
    var twice := OrdererAfter(once, w).value;
    PassOverPresentSettles(once.orgs, w.orgs);
    assert twice.capabilities + Elements(w.capabilities) == twice.capabilities;
    if w.consensus.WantRaft? {
      ConsentersSettle(o.consensus.consenters, w.consensus.consenters);
      ConsentersSettle(once.consensus.consenters, w.consensus.consenters);
    } else {
      PoliciesSettle(once.policies, PolicyAt(w.policies, "Admins"), PolicyAt(w.policies, "Writers"),
                     PolicyAt(w.policies, "Readers"));
    }
  }

  /** The application group is stable from the first pass on. */
  lemma ApplicationSettles(a: ApplicationGroup, w: WantedApplication)
    ensures var once := ApplicationAfter(a, w); ApplicationAfter(once, w) == once
  {
    var once := ApplicationAfter(a, w);
    assert ApplicationOrgsAfter(once.orgs, w.orgs) == once.orgs;
    if w.acls.Some? { assert once.acls + w.acls.value == once.acls; }
  }

  ghost predicate Ready(c: Channel, w: Wanted) {
    OrdererReady(c.orderer, w.orderer)
  }

  ghost predicate Steady(c: Channel, w: Wanted) {
    Reconcile(c, w) == Ok(c)
  }

  lemma ReconcilePass(c: Channel, w: Wanted)
    requires Ready(c, w)
    ensures Reconcile(c, w).Ok? && Ready(Reconcile(c, w).value, w)
  {
    OrdererPass(c.orderer, w.orderer);
  }

  lemma SettlesOnceReady(c: Channel, w: Wanted)
    requires Reconcile(c, w).Ok? && Ready(Reconcile(c, w).value, w)
    ensures Reconcile(Reconcile(c, w).value, w).Ok?
    ensures Steady(Reconcile(Reconcile(c, w).value, w).value, w)
  {
    var once := Reconcile(c, w).value;
    ReconcilePass(once, w);
    OrdererSettles(c.orderer, w.orderer);
    ApplicationSettles(c.application, w.application);
    ApplicationSettles(once.application, w.application);
  }

  /**
   * Whatever the current configuration and whichever of the four maintenance combinations it is, the second
   * reconcile reaches a configuration that the third finds nothing to change in.
   */
  lemma TwoReconcilesSettle(c: Channel, w: Wanted)
    requires Ready(c, w)
    ensures Reconcile(c, w).Ok? && Reconcile(Reconcile(c, w).value, w).Ok?
    ensures Steady(Reconcile(Reconcile(c, w).value, w).value, w)
  {
    ReconcilePass(c, w);
    SettlesOnceReady(c, w);
  }

  /** The configuration after a reconcile: one that fails submits nothing. */
  function Submitted(c: Channel, w: Wanted): Channel {
    if Reconcile(c, w).Ok? then Reconcile(c, w).value else c
  }

  ghost predicate AddressesUnique(w: Wanted) {
    w.orderer.consensus.WantRaft? ==> AddressUnique(w.orderer.consensus.consenters)
  }

  lemma ThirdSuccessMeansReady(c: Channel, w: Wanted)
    requires AddressesUnique(w) && Reconcile(c, w).Ok? && Reconcile(Reconcile(c, w).value, w).Ok?
    requires Reconcile(Reconcile(Reconcile(c, w).value, w).value, w).Ok?
    ensures Ready(c, w) && Ready(Reconcile(c, w).value, w)
  {
    OrgsReadyIff(c.orderer.orgs, w.orderer.orgs);
    ReconcilePass(c, w);
  }

  /** From any configuration at all, failing reconciles included, the third reconcile submits nothing. */
  lemma ThirdSubmitsNothing(c: Channel, w: Wanted)
    requires AddressesUnique(w)
    ensures var twice := Submitted(Submitted(c, w), w); Submitted(twice, w) == twice
  {
    if Reconcile(c, w).Ok? && Reconcile(Submitted(c, w), w).Ok? && Reconcile(Submitted(Submitted(c, w), w), w).Ok? {
      ThirdSuccessMeansReady(c, w);
      SettlesOnceReady(c, w);
    }
  }

  /**
   * Reconciles go on succeeding exactly when the configuration is ready: no downgrade, the kept orderer endpoints
   * readable, and the wanted ones readable again in the form they are stored in.
   */
  lemma KeepsSucceedingIffReady(c: Channel, w: Wanted)
    requires AddressesUnique(w)
    ensures Ready(c, w) <==>
              && Reconcile(c, w).Ok? && Reconcile(Reconcile(c, w).value, w).Ok?
              && Reconcile(Reconcile(Reconcile(c, w).value, w).value, w).Ok?
  {
    if Ready(c, w) {
      TwoReconcilesSettle(c, w);
    }
    if Reconcile(c, w).Ok? && Reconcile(Reconcile(c, w).value, w).Ok?
       && Reconcile(Reconcile(Reconcile(c, w).value, w).value, w).Ok? {
      ThirdSuccessMeansReady(c, w);
    }
  }

  /** What the settled configuration has in common with the spec. */
  ghost predicate Meets(c: Channel, w: Wanted) {
    && c.orderer.state == w.orderer.state
    && c.capabilities == Elements(w.capabilities)
    && c.orderer.orgs.Keys == Names(w.orderer.orgs)
    && c.orderer.batchSize == w.orderer.batchSize && c.orderer.batchTimeout == w.orderer.batchTimeout
    && Elements(w.orderer.capabilities) <= c.orderer.capabilities
    && (match w.orderer.consensus
        case WantRaft(consenters, options) =>
          && c.orderer.consensus.Raft? && c.orderer.consensus.options == options
          && c.orderer.policies == w.orderer.policies
          && (forall x :: x in c.orderer.consensus.consenters <==> x in consenters)
        case WantBft(options, mapping) =>
          && c.orderer.consensus == Bft(options) && c.orderer.mapping == mapping
          && forall n :: n in {"Admins", "Writers", "Readers"} ==>
             n in c.orderer.policies && c.orderer.policies[n] == PolicyAt(w.orderer.policies, n))
    && (w.orderer.state == Normal ==>
          && c.application.orgs.Keys == Names(w.application.orgs)
          && c.application.policies == w.application.policies
          && c.application.capabilities == Elements(w.application.capabilities)
          && (w.application.acls.Some? ==> forall k :: k in w.application.acls.value ==>
                k in c.application.acls && c.application.acls[k] == w.application.acls.value[k]))
  }

  /** A steady configuration is one that meets the spec, so two reconciles always get there. */
  lemma SteadyMeetsSpec(c: Channel, w: Wanted)
    requires Ready(c, w) && Steady(c, w)
    ensures Meets(c, w)
  {
    if w.orderer.consensus.WantRaft? {
      ConsentersExact(c.orderer.consensus.consenters, w.orderer.consensus.consenters);
    } else {
      assert c.orderer.consensus.Bft?;
    }
    assert Elements(w.orderer.capabilities) <= c.orderer.capabilities + Elements(w.orderer.capabilities);
  }

  /** A switch of state takes both reconciles: one is not enough when the wanted application group differs. */
  lemma OneReconcileIsNotEnough(c: Channel, w: Wanted)
    requires Ready(c, w) && InMaintenance(c) && w.orderer.state == Normal
    requires ApplicationAfter(c.application, w.application) != c.application
    ensures Reconcile(c, w).Ok? && !Steady(Reconcile(c, w).value, w)
  {
    ReconcilePass(c, w);
    var once := Reconcile(c, w).value;
    ReconcilePass(once, w);
    assert Reconcile(once, w).value.application == ApplicationAfter(c.application, w.application);
  }
}
