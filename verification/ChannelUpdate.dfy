/**
 * What one reconcile of the main channel makes of the current configuration: the specification that the
 * update methods in MainChannel are proved against and that the run properties are about.
 */
module ChannelUpdate {
  import opened Wrappers
  import opened HostPort
  import opened ChannelConfig
  import opened Consenters

  /** The last organization of this name, the one that wins when names repeat. */
  function LastNamed(orgs: seq<Organization>, name: string): (o: Organization)
    requires name in Names(orgs)
    ensures o in orgs && o.name == name
  {
    var n := |orgs| - 1;
    if orgs[n].name == name then orgs[n]
    else
      assert orgs == orgs[..n] + [orgs[n]];
      LastNamed(orgs[..n], name)
  }

  // -------------------------------------------------------------- application

  /** Kept organizations are not rewritten; missing ones go, new ones come in as wanted. */
  function ApplicationOrgsAfter(orgs: Organizations, wants: seq<Organization>): Organizations {
    map name | name in Names(wants) :: if name in orgs then orgs[name] else LastNamed(wants, name)
  }

  function ApplicationAfter(a: ApplicationGroup, w: WantedApplication): ApplicationGroup {
    ApplicationGroup(
      ApplicationOrgsAfter(a.orgs, w.orgs),
      w.policies,
      if w.acls.Some? then a.acls + w.acls.value else a.acls,
      Elements(w.capabilities))
  }

  // ---------------------------------------------------------------- endpoints

  /** Remove from `cur` what each endpoint of `doomed` reads as; a malformed one stops the update. */
  function RemoveEndpoints(cur: seq<string>, doomed: seq<string>): Result<seq<string>, UpdateError> {
    if |doomed| == 0 then Ok(cur)
    else
      var rest := RemoveEndpoints(cur, doomed[..|doomed| - 1]);
      var a := Parse(doomed[|doomed| - 1]);
      if rest.Err? then rest
      else if a.Err? then Err(BadEndpoint(a.error))
      else Ok(Without(rest.value, Print(a.value)))
  }

  function AddEndpoints(cur: seq<string>, added: seq<string>): Result<seq<string>, UpdateError> {
    if |added| == 0 then Ok(cur)
    else
      var rest := AddEndpoints(cur, added[..|added| - 1]);
      var a := Parse(added[|added| - 1]);
      if rest.Err? then rest
      else if a.Err? then Err(BadEndpoint(a.error))
      else Ok(With(rest.value, Print(a.value)))
  }

  /** A kept orderer organization: its endpoints and revocation list are replaced, nothing else. */
  function Refresh(o: Organization, w: Organization): Result<Organization, UpdateError> {
    var cleared := RemoveEndpoints(o.endpoints, o.endpoints);
    if cleared.Err? then Err(cleared.error)
    else
      var filled := AddEndpoints(cleared.value, w.endpoints);
      if filled.Err? then Err(filled.error)
      else Ok(o.(endpoints := filled.value, msp := o.msp.(revocations := w.msp.revocations)))
  }

  // ------------------------------------------------------ orderer organizations

  function KeepOrgs(orgs: Organizations, names: set<string>): Organizations {
    map name | name in orgs && name in names :: orgs[name]
  }

  /** Refresh or set the wanted organizations one after the other; `known` are those present at the start. */
  function PlaceOrgs(orgs: Organizations, known: set<string>, wants: seq<Organization>)
    : (r: Result<Organizations, UpdateError>)
    requires forall w :: w in wants && w.name in known ==> w.name in orgs
    ensures r.Ok? ==> r.value.Keys == orgs.Keys + Names(wants)
  {
    if |wants| == 0 then Ok(orgs)
    else
      var front := wants[..|wants| - 1];
      var w := wants[|wants| - 1];
      assert wants == front + [w];
      var rest := PlaceOrgs(orgs, known, front);
      if rest.Err? then rest
      else if w.name !in known then Ok(rest.value[w.name := w])
      else
        var o := Refresh(rest.value[w.name], w);
        if o.Err? then Err(o.error) else Ok(rest.value[w.name := o.value])
  }

  function OrdererOrgsAfter(orgs: Organizations, wants: seq<Organization>): (r: Result<Organizations, UpdateError>)
    ensures r.Ok? ==> r.value.Keys == Names(wants)
  {
    PlaceOrgs(KeepOrgs(orgs, Names(wants)), orgs.Keys, wants)
  }

  // ------------------------------------------------------------------- orderer

  function RaftAfter(o: OrdererGroup, w: WantedOrderer): Result<OrdererGroup, UpdateError>
    requires w.consensus.WantRaft?
  {
    if o.consensus.Bft? then Err(Downgrade)
    else Ok(o.(policies := w.policies,
               consensus := Raft(ConsentersAfter(o.consensus.consenters, w.consensus.consenters), w.consensus.options)))
  }

  function BftAfter(o: OrdererGroup, w: WantedOrderer): OrdererGroup
    requires w.consensus.WantBft?
  {
    var switched := o.(consensus := Bft(w.consensus.smartOptions), mapping := w.consensus.mapping);
    if o.consensus.Raft? then switched
    else
      var p := o.policies["Admins" := PolicyAt(w.policies, "Admins")];
      var q := p["Writers" := PolicyAt(w.policies, "Writers")];
      switched.(policies := q["Readers" := PolicyAt(w.policies, "Readers")])
  }

  function OrdererAfter(o: OrdererGroup, w: WantedOrderer): Result<OrdererGroup, UpdateError> {
    var typed := if w.consensus.WantRaft? then RaftAfter(o, w) else Ok(BftAfter(o, w));
    if typed.Err? then typed
    else
      var orgs := OrdererOrgsAfter(o.orgs, w.orgs);
      if orgs.Err? then Err(orgs.error)
      else
        Ok(typed.value.(state := w.state, orgs := orgs.value, batchSize := w.batchSize, batchTimeout := w.batchTimeout,
                        capabilities := o.capabilities + Elements(w.capabilities)))
  }

  // ------------------------------------------------------------ the whole update

  predicate InMaintenance(c: Channel) {
    c.orderer.state == Maintenance
  }

  predicate EntersMaintenance(c: Channel, w: Wanted) {
    !InMaintenance(c) && w.orderer.state == Maintenance
  }

  function Reconcile(c: Channel, w: Wanted): Result<Channel, UpdateError> {
    var application :=
      if !InMaintenance(c) && !EntersMaintenance(c, w) then ApplicationAfter(c.application, w.application)
      else c.application;
    var capabilities := if !EntersMaintenance(c, w) then Elements(w.capabilities) else c.capabilities;
    match OrdererAfter(c.orderer, w.orderer)
    case Err(e) => Err(e)
    case Ok(orderer) => Ok(Channel(application, orderer, capabilities))
  }

  // ----------------------------------------------------------------- gate facts

  /** The main controller leaves the application group alone in a step that starts or ends in maintenance. */
  lemma MaintenanceFreezesApplication(c: Channel, w: Wanted)
    requires Reconcile(c, w).Ok?
    requires InMaintenance(c) || InMaintenance(Reconcile(c, w).value)
    ensures Reconcile(c, w).value.application == c.application
  {
  }

  /** Entering maintenance changes nothing outside the orderer group. */
  lemma EnteringTouchesOrdererOnly(c: Channel, w: Wanted)
    requires Reconcile(c, w).Ok? && !InMaintenance(c) && InMaintenance(Reconcile(c, w).value)
    ensures Reconcile(c, w).value == c.(orderer := Reconcile(c, w).value.orderer)
  {
  }

  /** Which parts of the orderer group a successful reconcile decides, and from what. */
  lemma ReconcileDecides(c: Channel, w: Wanted)
    requires Reconcile(c, w).Ok?
    ensures var d := Reconcile(c, w).value;
            && d.orderer.state == w.orderer.state
            && (d.orderer.consensus.Bft? <==> w.orderer.consensus.WantBft?)
            && (!EntersMaintenance(c, w) ==> d.capabilities == Elements(w.capabilities))
            && (EntersMaintenance(c, w) ==> d.capabilities == c.capabilities)
            && d.orderer.orgs.Keys == Names(w.orderer.orgs)
            && c.orderer.capabilities <= d.orderer.capabilities
            && (c.orderer.consensus.Bft? ==> d.orderer.consensus.Bft?)
  {
  }
}
