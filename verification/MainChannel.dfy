/** The update loops of mainchannel_controller.go, as they edit a configuration transaction. */
module MainChannel {
  import opened Wrappers
  import opened HostPort
  import opened ChannelConfig
  import opened Consenters
  import opened ChannelUpdate
  import opened OrdererOrgs
  import opened ChannelSpec
  import opened ConfigTx
  import opened Delivery

  method IsWanted(name: string, wants: seq<Organization>) returns (found: bool)
    ensures found <==> name in Names(wants)
  {
    found := false;
    for i := 0 to |wants|
      invariant !found && forall k :: 0 <= k < i ==> wants[k].name != name
    {
      if wants[i].name == name {
        assert wants[i] in wants;
        return true;
      }
    }
  }

  method IsListed(name: string, names: seq<string>) returns (found: bool)
    ensures found <==> name in names
  {
    found := false;
    for i := 0 to |names|
      invariant !found && name !in names[..i]
    {
      if names[i] == name {
        return true;
      }
    }
  }

  // ------------------------------------------------------- application channel

  /** The adding loop on values: a name not known at the start is set, possibly again when names repeat. */
  function PlaceMissing(orgs: Organizations, known: set<string>, wants: seq<Organization>): Organizations {
    if |wants| == 0 then orgs
    else
      var rest := PlaceMissing(orgs, known, wants[..|wants| - 1]);
      var w := wants[|wants| - 1];
      if w.name in known then rest else rest[w.name := w]
  }

  lemma {:induction false} PlaceMissingShape(orgs: Organizations, known: set<string>, wants: seq<Organization>,
                                             n: string)
    ensures n in PlaceMissing(orgs, known, wants) <==> n in orgs || (n in Names(wants) && n !in known)
    ensures n in orgs && n in known ==> PlaceMissing(orgs, known, wants)[n] == orgs[n]
    ensures n in Names(wants) && n !in known ==> PlaceMissing(orgs, known, wants)[n] == LastNamed(wants, n)
  {
    if |wants| > 0 {
      assert wants == wants[..|wants| - 1] + [wants[|wants| - 1]];
      PlaceMissingShape(orgs, known, wants[..|wants| - 1], n);
    }
  }

  lemma PlaceMissingIsUpdate(orgs: Organizations, wants: seq<Organization>)
    ensures PlaceMissing(KeepOrgs(orgs, Names(wants)), orgs.Keys, wants) == ApplicationOrgsAfter(orgs, wants)
  {
    var placed := PlaceMissing(KeepOrgs(orgs, Names(wants)), orgs.Keys, wants);
    var after := ApplicationOrgsAfter(orgs, wants);
    forall n ensures n in placed <==> n in after {
      PlaceMissingShape(KeepOrgs(orgs, Names(wants)), orgs.Keys, wants, n);
    }
    forall n | n in after ensures placed[n] == after[n] {
      PlaceMissingShape(KeepOrgs(orgs, Names(wants)), orgs.Keys, wants, n);
    }
  }

  /** Removes the organizations that are not wanted; reports the names there were. */
  method DropApplicationOrganizations(tx: Transaction, wants: seq<Organization>) returns (current: seq<string>)
    modifies tx`application
    ensures Elements(current) == old(tx.application).orgs.Keys
    ensures tx.application == old(tx.application).(orgs := KeepOrgs(old(tx.application).orgs, Names(wants)))
  {
    ghost var orgs := tx.application.orgs;
    current := InSomeOrder(tx.application.orgs.Keys);
    for i := 0 to |current|
      invariant tx.application == old(tx.application).(orgs := tx.application.orgs)
      invariant tx.application.orgs == map n | n in orgs && (n in Names(wants) || n !in current[..i]) :: orgs[n]
    {
      assert current[..i + 1] == current[..i] + [current[i]];
      var wanted := IsWanted(current[i], wants);
      if !wanted {
        tx.RemoveApplicationOrganization(current[i]);
      }
    }
    assert current[..|current|] == current;
    forall n | n in orgs ensures n in current {
      assert n in Elements(current);
    }
  }

  method UpdateApplicationOrganizations(tx: Transaction, wants: seq<Organization>)
    modifies tx`application
    ensures tx.application == old(tx.application).(orgs := ApplicationOrgsAfter(old(tx.application).orgs, wants))
  {
    ghost var orgs := tx.application.orgs;
    var current := DropApplicationOrganizations(tx, wants);
    ghost var kept := tx.application.orgs;
    for i := 0 to |wants|
      invariant tx.application == old(tx.application).(orgs := PlaceMissing(kept, orgs.Keys, wants[..i]))
    {
      assert wants[..i + 1][..i] == wants[..i];
      var found := IsListed(wants[i].name, current);
      assert found <==> wants[i].name in Elements(current);
      if !found {
        tx.SetApplicationOrganization(wants[i].name, wants[i]);
      }
    }
    assert wants[..|wants|] == wants;
    PlaceMissingIsUpdate(orgs, wants);
  }

  method UpdateApplicationChannel(tx: Transaction, w: WantedApplication)
    modifies tx`application
    ensures tx.application == ApplicationAfter(old(tx.application), w)
  {
    tx.SetApplicationPolicies(w.policies);
    var capabilities := InSomeOrder(tx.application.capabilities);
    UpdateApplicationOrganizations(tx, w.orgs);
    tx.SetApplicationPolicies(w.policies);
    if w.acls.Some? {
      var keys := w.acls.value.Keys;
      tx.RemoveACLs(keys);
      tx.SetACLs(w.acls.value);
      assert old(tx.application).acls - keys + w.acls.value == old(tx.application).acls + w.acls.value;
    }
    ghost var edited := tx.application;
    for i := 0 to |capabilities|
      invariant tx.application == edited.(capabilities := edited.capabilities - Elements(capabilities[..i]))
    {
      assert Elements(capabilities[..i + 1]) == Elements(capabilities[..i]) + {capabilities[i]} by {
        assert capabilities[..i + 1] == capabilities[..i] + [capabilities[i]];
      }
      tx.RemoveApplicationCapability(capabilities[i]);
    }
    assert capabilities[..|capabilities|] == capabilities;
    for i := 0 to |w.capabilities|
      invariant tx.application == edited.(capabilities := Elements(w.capabilities[..i]))
    {
      assert Elements(w.capabilities[..i + 1]) == Elements(w.capabilities[..i]) + {w.capabilities[i]} by {
        assert w.capabilities[..i + 1] == w.capabilities[..i] + [w.capabilities[i]];
      }
      tx.AddApplicationCapability(w.capabilities[i]);
    }
    assert w.capabilities[..|w.capabilities|] == w.capabilities;
  }

  // ------------------------------------------------------------- channel group

  method UpdateChannelCapabilities(tx: Transaction, wants: seq<string>)
    modifies tx`capabilities
    ensures tx.capabilities == Elements(wants)
  {
    ghost var before := tx.capabilities;
    var current := InSomeOrder(tx.capabilities);
    for i := 0 to |current|
      invariant tx.capabilities == before - Elements(current[..i])
    {
      assert current[..i + 1] == current[..i] + [current[i]];
      tx.RemoveCapability(current[i]);
    }
    assert current[..|current|] == current;
    for i := 0 to |wants|
      invariant tx.capabilities == Elements(wants[..i])
    {
      assert wants[..i + 1] == wants[..i] + [wants[i]];
      tx.AddCapability(wants[i]);
    }
    assert wants[..|wants|] == wants;
  }

  // ------------------------------------------------------------- orderer group

  /** The inner search of both consenter loops; it stops at the first match. */
  method FindConsenter(cs: seq<Consenter>, c: Consenter) returns (r: Option<Consenter>)
    ensures r == AtAddress(cs, c)
  {
    for i := 0 to |cs|
      invariant AtAddress(cs, c) == AtAddress(cs[i..], c)
    {
      if cs[i].host == c.host && cs[i].port == c.port {
        return Some(cs[i]);
      }
      assert cs[i..][1..] == cs[i + 1..];
    }
    return None;
  }

  method UpdateConsenters(tx: Transaction, wants: seq<Consenter>)
    requires tx.orderer.consensus.Raft?
    modifies tx`orderer
    ensures var raft := old(tx.orderer).consensus;
            tx.orderer == old(tx.orderer).(consensus := raft.(consenters := ConsentersAfter(raft.consenters, wants)))
  {
    var prior := tx.orderer.consensus.consenters;
    ghost var raft := tx.orderer.consensus;
    for i := 0 to |prior|
      invariant tx.orderer == old(tx.orderer).(consensus := raft.(consenters := SweepOld(prior, prior[..i], wants)))
    {
      assert prior[..i + 1][..i] == prior[..i];
      var consenter := prior[i];
      var deleted := true;
      var needsUpdate := false;
      var m := FindConsenter(wants, consenter);
      if m.Some? {
        deleted := false;
        if m.value.clientCert != consenter.clientCert || m.value.serverCert != consenter.serverCert {
          needsUpdate := true;
        }
      }
      if deleted {
        tx.RemoveConsenter(consenter);
      } else if needsUpdate {
        tx.RemoveConsenter(consenter);
        tx.AddConsenter(m.value);
      }
    }
    assert prior[..|prior|] == prior;
    ghost var swept := SweepOld(prior, prior, wants);
    for i := 0 to |wants|
      invariant tx.orderer == old(tx.orderer).(consensus := raft.(consenters := SweepNew(swept, wants[..i], prior)))
    {
      assert wants[..i + 1][..i] == wants[..i];
      var found := FindConsenter(prior, wants[i]);
      if found.None? {
        tx.AddConsenter(wants[i]);
      }
    }
    assert wants[..|wants|] == wants;
  }

  /** The orderer group with other endpoints for one of its organizations. */
  function WithEndpoints(o: OrdererGroup, name: string, endpoints: seq<string>): OrdererGroup
    requires name in o.orgs
  {
    o.(orgs := o.orgs[name := o.orgs[name].(endpoints := endpoints)])
  }

  lemma EndpointsTwice(o: OrdererGroup, name: string, first: seq<string>, second: seq<string>)
    requires name in o.orgs
    ensures WithEndpoints(WithEndpoints(o, name, first), name, second) == WithEndpoints(o, name, second)
    ensures WithEndpoints(o, name, o.orgs[name].endpoints) == o
  {
    assert o.orgs[name := o.orgs[name]] == o.orgs;
  }

  method ClearEndpoints(tx: Transaction, name: string, doomed: seq<string>) returns (err: Option<UpdateError>)
    requires name in tx.orderer.orgs
    modifies tx`orderer
    ensures match RemoveEndpoints(old(tx.orderer).orgs[name].endpoints, doomed)
            case Err(e) => err == Some(e)
            case Ok(rest) => err.None? && tx.orderer == WithEndpoints(old(tx.orderer), name, rest)
  {
    ghost var start := tx.orderer.orgs[name].endpoints;
    EndpointsTwice(tx.orderer, name, start, start);
    for i := 0 to |doomed|
      invariant RemoveEndpoints(start, doomed[..i]).Ok?
      invariant tx.orderer == WithEndpoints(old(tx.orderer), name, RemoveEndpoints(start, doomed[..i]).value)
    {
      assert doomed[..i + 1][..i] == doomed[..i];
      var a := Parse(doomed[i]);
      if a.Err? {
        RemoveStops(start, doomed, i);
        return Some(BadEndpoint(a.error));
      }
      ghost var before := RemoveEndpoints(start, doomed[..i]).value;
      tx.RemoveEndpoint(name, a.value);
      EndpointsTwice(old(tx.orderer), name, before, Without(before, Print(a.value)));
    }
    assert doomed[..|doomed|] == doomed;
    return None;
  }

  method FillEndpoints(tx: Transaction, name: string, added: seq<string>) returns (err: Option<UpdateError>)
    requires name in tx.orderer.orgs
    modifies tx`orderer
    ensures match AddEndpoints(old(tx.orderer).orgs[name].endpoints, added)
            case Err(e) => err == Some(e)
            case Ok(all) => err.None? && tx.orderer == WithEndpoints(old(tx.orderer), name, all)
  {
    ghost var start := tx.orderer.orgs[name].endpoints;
    EndpointsTwice(tx.orderer, name, start, start);
    for i := 0 to |added|
      invariant AddEndpoints(start, added[..i]).Ok?
      invariant tx.orderer == WithEndpoints(old(tx.orderer), name, AddEndpoints(start, added[..i]).value)
    {
      assert added[..i + 1][..i] == added[..i];
      var a := Parse(added[i]);
      if a.Err? {
        AddStops(start, added, i);
        return Some(BadEndpoint(a.error));
      }
      ghost var before := AddEndpoints(start, added[..i]).value;
      tx.SetEndpoint(name, a.value);
      EndpointsTwice(old(tx.orderer), name, before, With(before, Print(a.value)));
    }
    assert added[..|added|] == added;
    return None;
  }

  /** A kept organization: clear its endpoints, add the wanted ones, replace the revocation list. */
  method RefreshOrganization(tx: Transaction, w: Organization) returns (err: Option<UpdateError>)
    requires w.name in tx.orderer.orgs
    modifies tx`orderer
    ensures match Refresh(old(tx.orderer).orgs[w.name], w)
            case Err(e) => err == Some(e)
            case Ok(o) => err.None? && tx.orderer == old(tx.orderer).(orgs := old(tx.orderer).orgs[w.name := o])
  {
    var config := tx.orderer.orgs[w.name];
    err := ClearEndpoints(tx, w.name, config.endpoints);
    if err.Some? {
      return;
    }
    err := FillEndpoints(tx, w.name, w.endpoints);
    if err.Some? {
      return;
    }
    tx.SetMsp(w.name, config.msp.(revocations := w.msp.revocations));
  }

  /** The first malformed endpoint decides the error. */
  lemma {:induction false} RemoveStops(cur: seq<string>, doomed: seq<string>, i: nat)
    requires i < |doomed| && RemoveEndpoints(cur, doomed[..i]).Ok? && Parse(doomed[i]).Err?
    ensures RemoveEndpoints(cur, doomed) == Err(BadEndpoint(Parse(doomed[i]).error))
  {
    var front := doomed[..|doomed| - 1];
    if i < |doomed| - 1 {
      assert front[..i] == doomed[..i];
      RemoveStops(cur, front, i);
    }
  }

  lemma {:induction false} AddStops(cur: seq<string>, added: seq<string>, i: nat)
    requires i < |added| && AddEndpoints(cur, added[..i]).Ok? && Parse(added[i]).Err?
    ensures AddEndpoints(cur, added) == Err(BadEndpoint(Parse(added[i]).error))
  {
    var front := added[..|added| - 1];
    if i < |added| - 1 {
      assert front[..i] == added[..i];
      AddStops(cur, front, i);
    }
  }

  lemma {:induction false} PlaceStops(orgs: Organizations, known: set<string>, wants: seq<Organization>, i: nat)
    requires i <= |wants|
    requires forall w :: w in wants && w.name in known ==> w.name in orgs
    requires forall w :: w in wants[..i] && w.name in known ==> w.name in orgs
    requires PlaceOrgs(orgs, known, wants[..i]).Err?
    ensures PlaceOrgs(orgs, known, wants) == PlaceOrgs(orgs, known, wants[..i])
  {
    if i < |wants| {
      var front := wants[..|wants| - 1];
      assert front[..i] == wants[..i];
      PlaceStops(orgs, known, front, i);
    } else {
      assert wants[..i] == wants;
    }
  }

  method DropOrdererOrganizations(tx: Transaction, wants: seq<Organization>) returns (current: seq<string>)
    modifies tx`orderer
    ensures Elements(current) == old(tx.orderer).orgs.Keys
    ensures tx.orderer == old(tx.orderer).(orgs := KeepOrgs(old(tx.orderer).orgs, Names(wants)))
  {
    ghost var orgs := tx.orderer.orgs;
    current := InSomeOrder(tx.orderer.orgs.Keys);
    for i := 0 to |current|
      invariant tx.orderer == old(tx.orderer).(orgs := tx.orderer.orgs)
      invariant tx.orderer.orgs == map n | n in orgs && (n in Names(wants) || n !in current[..i]) :: orgs[n]
    {
      assert current[..i + 1] == current[..i] + [current[i]];
      var wanted := IsWanted(current[i], wants);
      if !wanted {
        tx.RemoveOrdererOrganization(current[i]);
      }
    }
    assert current[..|current|] == current;
    forall n | n in orgs ensures n in current {
      assert n in Elements(current);
    }
  }

  method UpdateOrdererOrganizations(tx: Transaction, wants: seq<Organization>) returns (err: Option<UpdateError>)
    modifies tx`orderer
    ensures match OrdererOrgsAfter(old(tx.orderer).orgs, wants)
            case Err(e) => err == Some(e)
            case Ok(orgs) => err.None? && tx.orderer == old(tx.orderer).(orgs := orgs)
  {
    ghost var orgs := tx.orderer.orgs;
    var current := DropOrdererOrganizations(tx, wants);
    ghost var kept := tx.orderer.orgs;
    for i := 0 to |wants|
      invariant PlaceOrgs(kept, orgs.Keys, wants[..i]).Ok?
      invariant tx.orderer == old(tx.orderer).(orgs := PlaceOrgs(kept, orgs.Keys, wants[..i]).value)
    {
      assert wants[..i + 1][..i] == wants[..i];
      assert wants[i] in wants && wants[i] in wants[..i + 1];
      var found := IsListed(wants[i].name, current);
      assert found <==> wants[i].name in Elements(current);
      if found {
        var bad := RefreshOrganization(tx, wants[i]);
        if bad.Some? {
          PlaceStops(kept, orgs.Keys, wants, i + 1);
          return bad;
        }
      } else {
        tx.SetOrdererOrganization(wants[i]);
      }
    }
    assert wants[..|wants|] == wants;
    return None;
  }

  method UpdateOrdererCapabilities(tx: Transaction, wants: seq<string>)
    modifies tx`orderer
    ensures tx.orderer == old(tx.orderer).(capabilities := old(tx.orderer).capabilities + Elements(wants))
  {
    ghost var before := tx.orderer.capabilities;
    for i := 0 to |wants|
      invariant tx.orderer == old(tx.orderer).(capabilities := before - Elements(wants[..i]))
    {
      assert wants[..i + 1] == wants[..i] + [wants[i]];
      tx.RemoveOrdererCapability(wants[i]);
      assert before - Elements(wants[..i]) - {wants[i]} == before - Elements(wants[..i + 1]);
    }
    assert wants[..|wants|] == wants;
    for i := 0 to |wants|
      invariant tx.orderer == old(tx.orderer).(capabilities := before - Elements(wants) + Elements(wants[..i]))
    {
      assert wants[..i + 1] == wants[..i] + [wants[i]];
      tx.AddOrdererCapability(wants[i]);
      assert before - Elements(wants) + Elements(wants[..i]) + {wants[i]}
        == before - Elements(wants) + Elements(wants[..i + 1]);
    }
    assert before - Elements(wants) + Elements(wants) == before + Elements(wants);
  }

  /**
   * Consensus type, metadata and the policies that go with it; setting the BFT configuration sets state and
   * batching too.
   */
  method UpdateConsensus(tx: Transaction, w: WantedOrderer) returns (err: Option<UpdateError>)
    modifies tx`orderer
    ensures var typed := if w.consensus.WantRaft? then RaftAfter(old(tx.orderer), w)
              else Ok(BftAfter(old(tx.orderer), w));
            match typed
            case Err(e) => err == Some(e)
            case Ok(o) =>
              && err.None?
              && tx.orderer == if w.consensus.WantRaft? then o
                               else o.(state := w.state, batchSize := w.batchSize, batchTimeout := w.batchTimeout)
    ensures err.None? && w.consensus.WantBft? && old(tx.orderer).consensus.Raft? ==>
              tx.orderer.policies == old(tx.orderer).policies
    ensures err.None? && w.consensus.WantBft? ==> forall name :: name !in REPLACED ==>
              && (name in tx.orderer.policies <==> name in old(tx.orderer).policies)
              && (name in tx.orderer.policies ==> tx.orderer.policies[name] == old(tx.orderer).policies[name])
  {
    var ord := tx.orderer;
    if w.consensus.WantRaft? {
      if ord.consensus.Bft? {
        return Some(Downgrade);
      }
      tx.SetOrdererPolicies(w.policies);
      UpdateConsenters(tx, w.consensus.consenters);
      tx.SetRaftOptions(w.consensus.options);
    } else {
      tx.SetBftConfiguration(w);
      var mapping: seq<BftConsenter> := [];
      for i := 0 to |w.consensus.mapping|
        invariant mapping == w.consensus.mapping[..i]
      {
        mapping := mapping + [w.consensus.mapping[i]];
      }
      tx.SetConsenterMapping(mapping);
    }
    if ord.consensus.Bft? {
      tx.SetBftConfiguration(w);
      tx.SetOrdererPolicy("Admins", PolicyAt(w.policies, "Admins"));
      tx.SetOrdererPolicy("Writers", PolicyAt(w.policies, "Writers"));
      tx.SetOrdererPolicy("Readers", PolicyAt(w.policies, "Readers"));
    }
    return None;
  }

  method UpdateOrdererChannel(tx: Transaction, w: WantedOrderer) returns (err: Option<UpdateError>)
    modifies tx`orderer
    ensures match OrdererAfter(old(tx.orderer), w)
            case Err(e) => err == Some(e)
            case Ok(o) => err.None? && tx.orderer == o
  {
    err := UpdateConsensus(tx, w);
    if err.Some? {
      return;
    }
    tx.SetConsensusState(w.state);
    err := UpdateOrdererOrganizations(tx, w.orgs);
    if err.Some? {
      return;
    }
    tx.SetBatching(w.batchSize, w.batchTimeout);
    UpdateOrdererCapabilities(tx, w.capabilities);
  }

  // ----------------------------------------------------------------- the ledger

  /** The channel as the ordering service holds it; an update counts only against the current version. */
  class Ledger {
    var config: Channel
    var version: nat

    constructor (config: Channel)
      ensures this.config == config && version == 0
    {
      this.config := config;
      version := 0;
    }

    method SaveChannel(base: nat, update: Channel) returns (accepted: bool)
      modifies this
      ensures accepted <==> base == old(version)
      ensures config == (if accepted then update else old(config))
      ensures version == (if accepted then old(version) + 1 else old(version))
    {
      accepted := base == version;
      if accepted {
        config, version := update, version + 1;
      }
    }
  }

  datatype Update = Submitted | NoDifference | Failed(error: UpdateError) | Unmapped(cause: SpecError) | Refused

  /** The edits of one reconcile, gated by maintenance. */
  method EditChannel(tx: Transaction, w: Wanted) returns (err: Option<UpdateError>)
    modifies tx
    ensures match Reconcile(old(tx.UpdatedConfig()), w)
            case Err(e) => err == Some(e)
            case Ok(c) => err.None? && tx.UpdatedConfig() == c
  {
    var isMaintenanceMode := tx.orderer.state == Maintenance;
    var switchingToMaintenanceMode := !isMaintenanceMode && w.orderer.state == Maintenance;
    if !isMaintenanceMode && !switchingToMaintenanceMode {
      UpdateApplicationChannel(tx, w.application);
    }
    if !switchingToMaintenanceMode {
      UpdateChannelCapabilities(tx, w.capabilities);
    }
    err := UpdateOrdererChannel(tx, w.orderer);
  }

  /**
   * One reconcile. `approved` is whether the ordering service takes an update that is computed from the current
   * version; it may refuse one for its signatures or its content.
   */
  method UpdateChannelConfig(ledger: Ledger, s: Spec, approved: bool) returns (r: Update)
    modifies ledger
    ensures match ToWanted(s)
            case Err(e) => r == Unmapped(e) && unchanged(ledger)
            case Ok(w) =>
              match Reconcile(old(ledger.config), w)
              case Err(e) => r == Failed(e) && unchanged(ledger)
              case Ok(c) =>
                if c == old(ledger.config) then r == NoDifference && unchanged(ledger)
                else if !approved then r == Refused && unchanged(ledger)
                else r == Submitted && ledger.config == c && ledger.version == old(ledger.version) + 1
    ensures r.Unmapped? <==> !Mappable(s)
    ensures DistinctNames(s.ordererOrgs) ==> (r.Failed? <==> Mappable(s) && Obstructed(old(ledger.config), s))
    ensures r == Submitted || r == NoDifference ==> Delivered(old(ledger.config), s, ledger.config)
  {
    MappableIff(s);
    var block, base := ledger.config, ledger.version;
    var tx := new Transaction(block);
    var mapped := ToWanted(s);
    if mapped.Err? {
      return Unmapped(mapped.error);
    }
    var w := mapped.value;
    if DistinctNames(s.ordererOrgs) { FailsIffObstructed(block, s); }
    var err := EditChannel(tx, w);
    if err.Some? {
      return Failed(err.value);
    }
    ReconcileDelivers(block, s);
    if tx.UpdatedConfig() == block {
      return NoDifference;
    }
    if !approved {
      return Refused;
    }
    var accepted := ledger.SaveChannel(base, tx.UpdatedConfig());
    return if accepted then Submitted else Refused;
  }
}
