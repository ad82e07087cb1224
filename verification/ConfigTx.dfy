/**
 * A configuration transaction: the editable copy of a channel configuration that the reconcilers change step
 * by step. Each method stands for one library call and says what it does: add if absent, remove if present, set.
 */
module ConfigTx {
  import opened Wrappers
  import opened HostPort
  import opened ChannelConfig

  class Transaction {
    var application: ApplicationGroup
    var orderer: OrdererGroup
    var capabilities: set<string>

    constructor (c: Channel)
      ensures UpdatedConfig() == c
    {
      application := c.application;
      orderer := c.orderer;
      capabilities := c.capabilities;
    }

    function UpdatedConfig(): Channel
      reads this
    {
      Channel(application, orderer, capabilities)
    }

    // --------------------------------------------------------- channel group

    method RemoveCapability(c: string)
      modifies `capabilities
      ensures capabilities == old(capabilities) - {c}
    {
      capabilities := capabilities - {c};
    }

    method AddCapability(c: string)
      modifies `capabilities
      ensures capabilities == old(capabilities) + {c}
    {
      capabilities := capabilities + {c};
    }

    // ----------------------------------------------------- application group

    method SetApplicationPolicies(p: map<string, Policy>)
      modifies `application
      ensures application == old(application).(policies := p)
    {
      application := application.(policies := p);
    }

    method RemoveApplicationOrganization(name: string)
      modifies `application
      ensures application == old(application).(orgs := old(application).orgs - {name})
    {
      application := application.(orgs := application.orgs - {name});
    }

    /** Writes the whole group of this name. */
    method SetApplicationOrganization(name: string, o: Organization)
      modifies `application
      ensures application == old(application).(orgs := old(application).orgs[name := o])
    {
      application := application.(orgs := application.orgs[name := o]);
    }

    method RemoveACLs(keys: set<string>)
      modifies `application
      ensures application == old(application).(acls := old(application).acls - keys)
    {
      application := application.(acls := application.acls - keys);
    }

    method SetACLs(acls: map<string, string>)
      modifies `application
      ensures application == old(application).(acls := old(application).acls + acls)
    {
      application := application.(acls := application.acls + acls);
    }

    method RemoveApplicationCapability(c: string)
      modifies `application
      ensures application == old(application).(capabilities := old(application).capabilities - {c})
    {
      application := application.(capabilities := application.capabilities - {c});
    }

    method AddApplicationCapability(c: string)
      modifies `application
      ensures application == old(application).(capabilities := old(application).capabilities + {c})
    {
      application := application.(capabilities := application.capabilities + {c});
    }

    method RemoveAnchorPeer(name: string, a: Address)
      requires name in application.orgs
      modifies `application
      ensures var o := old(application).orgs[name];
              application == old(application).(
                               orgs := old(application).orgs[name := o.(anchors := Without(o.anchors, a))])
    {
      var o := application.orgs[name];
      application := application.(orgs := application.orgs[name := o.(anchors := Without(o.anchors, a))]);
    }

    method AddAnchorPeer(name: string, a: Address)
      requires name in application.orgs
      modifies `application
      ensures var o := old(application).orgs[name];
              application == old(application).(orgs := old(application).orgs[name := o.(anchors := With(o.anchors, a))])
    {
      var o := application.orgs[name];
      application := application.(orgs := application.orgs[name := o.(anchors := With(o.anchors, a))]);
    }

    // --------------------------------------------------------- orderer group

    method SetOrdererPolicies(p: map<string, Policy>)
      modifies `orderer
      ensures orderer == old(orderer).(policies := p)
    {
      orderer := orderer.(policies := p);
    }

    method SetOrdererPolicy(name: string, p: Policy)
      modifies `orderer
      ensures orderer == old(orderer).(policies := old(orderer).policies[name := p])
    {
      orderer := orderer.(policies := orderer.policies[name := p]);
    }

    method RemoveConsenter(c: Consenter)
      requires orderer.consensus.Raft?
      modifies `orderer
      ensures var raft := old(orderer).consensus;
              orderer == old(orderer).(consensus := raft.(consenters := Without(raft.consenters, c)))
    {
      orderer := orderer.(consensus := orderer.consensus.(consenters := Without(orderer.consensus.consenters, c)));
    }

    method AddConsenter(c: Consenter)
      requires orderer.consensus.Raft?
      modifies `orderer
      ensures var raft := old(orderer).consensus;
              orderer == old(orderer).(consensus := raft.(consenters := With(raft.consenters, c)))
    {
      orderer := orderer.(consensus := orderer.consensus.(consenters := With(orderer.consensus.consenters, c)));
    }

    /** One call per raft option in the repository; each replaces one field. */
    method SetRaftOptions(o: RaftOptions)
      requires orderer.consensus.Raft?
      modifies `orderer
      ensures orderer == old(orderer).(consensus := old(orderer).consensus.(options := o))
    {
      var raft := orderer.consensus;
      raft := raft.(options := raft.options.(electionTick := o.electionTick));
      raft := raft.(options := raft.options.(heartbeatTick := o.heartbeatTick));
      raft := raft.(options := raft.options.(tickInterval := o.tickInterval));
      raft := raft.(options := raft.options.(snapshotIntervalSize := o.snapshotIntervalSize));
      raft := raft.(options := raft.options.(maxInflightBlocks := o.maxInflightBlocks));
      orderer := orderer.(consensus := raft);
    }

    /** Sets consensus type, metadata, state and batching; organizations, policies and capabilities stay. */
    method SetBftConfiguration(w: WantedOrderer)
      requires w.consensus.WantBft?
      modifies `orderer
      ensures orderer == old(orderer).(consensus := Bft(w.consensus.smartOptions), state := w.state,
                                       batchSize := w.batchSize, batchTimeout := w.batchTimeout)
    {
      orderer := orderer.(consensus := Bft(w.consensus.smartOptions), state := w.state,
                          batchSize := w.batchSize, batchTimeout := w.batchTimeout);
    }

    method SetConsenterMapping(mapping: seq<BftConsenter>)
      modifies `orderer
      ensures orderer == old(orderer).(mapping := mapping)
    {
      orderer := orderer.(mapping := mapping);
    }

    method SetConsensusState(s: ConsensusState)
      modifies `orderer
      ensures orderer == old(orderer).(state := s)
    {
      orderer := orderer.(state := s);
    }

    method RemoveOrdererOrganization(name: string)
      modifies `orderer
      ensures orderer == old(orderer).(orgs := old(orderer).orgs - {name})
    {
      orderer := orderer.(orgs := orderer.orgs - {name});
    }

    method SetOrdererOrganization(o: Organization)
      modifies `orderer
      ensures orderer == old(orderer).(orgs := old(orderer).orgs[o.name := o])
    {
      orderer := orderer.(orgs := orderer.orgs[o.name := o]);
    }

    method RemoveEndpoint(name: string, a: Address)
      requires name in orderer.orgs
      modifies `orderer
      ensures var o := old(orderer).orgs[name];
              orderer == old(orderer).(
                           orgs := old(orderer).orgs[name := o.(endpoints := Without(o.endpoints, Print(a)))])
    {
      var o := orderer.orgs[name];
      orderer := orderer.(orgs := orderer.orgs[name := o.(endpoints := Without(o.endpoints, Print(a)))]);
    }

    method SetEndpoint(name: string, a: Address)
      requires name in orderer.orgs
      modifies `orderer
      ensures var o := old(orderer).orgs[name];
              orderer == old(orderer).(orgs := old(orderer).orgs[name := o.(endpoints := With(o.endpoints, Print(a)))])
    {
      var o := orderer.orgs[name];
      orderer := orderer.(orgs := orderer.orgs[name := o.(endpoints := With(o.endpoints, Print(a)))]);
    }

    method SetMsp(name: string, m: Msp)
      requires name in orderer.orgs
      modifies `orderer
      ensures var o := old(orderer).orgs[name];
              orderer == old(orderer).(orgs := old(orderer).orgs[name := o.(msp := m)])
    {
      var o := orderer.orgs[name];
      orderer := orderer.(orgs := orderer.orgs[name := o.(msp := m)]);
    }

    method SetBatching(size: BatchSize, timeout: string)
      modifies `orderer
      ensures orderer == old(orderer).(batchSize := size, batchTimeout := timeout)
    {
      orderer := orderer.(batchSize := size);
      orderer := orderer.(batchTimeout := timeout);
    }

    method RemoveOrdererCapability(c: string)
      modifies `orderer
      ensures orderer == old(orderer).(capabilities := old(orderer).capabilities - {c})
    {
      orderer := orderer.(capabilities := orderer.capabilities - {c});
    }

    method AddOrdererCapability(c: string)
      modifies `orderer
      ensures orderer == old(orderer).(capabilities := old(orderer).capabilities + {c})
    {
      orderer := orderer.(capabilities := orderer.capabilities + {c});
    }
  }

  /** The elements of a set in some order: Go map iteration, and lists the library builds from a map. */
  method InSomeOrder<T(==)>(s: set<T>) returns (r: seq<T>)
    ensures Elements(r) == s
    ensures forall i, j :: 0 <= i < j < |r| ==> r[i] != r[j]
  {
    r := [];
    var rest := s;
    while rest != {}
      invariant Elements(r) + rest == s && Elements(r) * rest == {}
      invariant forall i, j :: 0 <= i < j < |r| ==> r[i] != r[j]
      decreases rest
    {
      var x :| x in rest;
      assert Elements(r + [x]) == Elements(r) + {x};
      assert x !in Elements(r) * rest;
      assert x !in r;
      r := r + [x];
      rest := rest - {x};
    }
  }
}
