/**
 * The main and follower reconcilers side by side: each reads the configuration, works on its copy and submits,
 * and the ordering service accepts a submission only against the version it was computed from.
 */
module Interference {
  import opened Wrappers
  import opened ChannelConfig
  import opened ChannelUpdate
  import opened Convergence
  import opened Follower
  import opened Delivery

  datatype Author = ByMain(wanted: Wanted) | ByFollower(spec: FollowerSpec)

  /** An update computed from version `base`, not yet submitted. */
  datatype Draft = Draft(base: nat, update: Channel, author: Author)

  datatype World = World(config: Channel, version: nat, drafts: map<nat, Draft>)

  datatype Step = Read(id: nat, author: Author) | Submit(id: nat)

  function Computed(c: Channel, author: Author): Option<Channel> {
    match author
    case ByMain(w) =>
      (match Reconcile(c, w)
       case Ok(d) => Some(d)
       case Err(_) => None)
    case ByFollower(f) => FollowerAfter(c, f)
  }

  /** Whether submitting draft `id` now is accepted and changes something. */
  predicate Accepted(w: World, id: nat) {
    id in w.drafts && w.drafts[id].base == w.version && w.drafts[id].update != w.config
  }

  function Apply(w: World, s: Step): World {
    match s
    case Read(id, author) =>
      var update := Computed(w.config, author);
      if update.None? then w.(drafts := w.drafts - {id})
      else w.(drafts := w.drafts[id := Draft(w.version, update.value, author)])
    case Submit(id) =>
      var rest := w.drafts - {id};
      if Accepted(w, id) then World(w.drafts[id].update, w.version + 1, rest) else w.(drafts := rest)
  }

  function Exec(w: World, steps: seq<Step>): World {
    if |steps| == 0 then w else Apply(Exec(w, steps[..|steps| - 1]), steps[|steps| - 1])
  }

  /** A draft that could still be accepted is what its author makes of the present configuration. */
  ghost predicate DraftsFaithful(w: World) {
    forall id :: id in w.drafts ==>
      && w.drafts[id].base <= w.version
      && (w.drafts[id].base == w.version ==> Computed(w.config, w.drafts[id].author) == Some(w.drafts[id].update))
  }

  lemma {:induction false} RunKeepsFaithful(w: World, steps: seq<Step>)
    requires DraftsFaithful(w)
    ensures DraftsFaithful(Exec(w, steps))
  {
    if |steps| > 0 {
      RunKeepsFaithful(w, steps[..|steps| - 1]);
    }
  }

  // -------------------------------------------------------------- maintenance gate

  /**
   * Over any run, with any spec edits and any follower activity, an accepted main update leaves the application
   * group alone when it starts or ends in maintenance, and touches only the orderer group when it enters it.
   */
  lemma GateHoldsOverRuns(w: World, steps: seq<Step>, id: nat)
    requires DraftsFaithful(w)
    requires Accepted(Exec(w, steps), id) && Exec(w, steps).drafts[id].author.ByMain?
    ensures var v := Exec(w, steps); var u := Apply(v, Submit(id));
            && (InMaintenance(v.config) || InMaintenance(u.config) ==> u.config.application == v.config.application)
            && (!InMaintenance(v.config) && InMaintenance(u.config) ==>
               u.config == v.config.(orderer := u.config.orderer))
  {
    RunKeepsFaithful(w, steps);
    var v := Exec(w, steps);
    MaintenanceRules(v.config, v.drafts[id].author.wanted);
  }

  lemma MaintenanceRules(c: Channel, w: Wanted)
    requires Reconcile(c, w).Ok?
    ensures var d := Reconcile(c, w).value;
            && (InMaintenance(c) || InMaintenance(d) ==> d.application == c.application)
            && (!InMaintenance(c) && InMaintenance(d) ==> d == c.(orderer := d.orderer))
  {
    if InMaintenance(c) || InMaintenance(Reconcile(c, w).value) { MaintenanceFreezesApplication(c, w); }
    if !InMaintenance(c) && InMaintenance(Reconcile(c, w).value) { EnteringTouchesOrdererOnly(c, w); }
  }

  /** No follower update is ever accepted in maintenance, whenever it was computed. */
  lemma FollowersStayOutOfMaintenance(w: World, steps: seq<Step>, id: nat)
    requires DraftsFaithful(w)
    requires Accepted(Exec(w, steps), id) && Exec(w, steps).drafts[id].author.ByFollower?
    ensures Exec(w, steps).config.orderer.state == Normal
  {
    RunKeepsFaithful(w, steps);
  }

  ghost predicate MaintenanceThroughout(w: World, steps: seq<Step>) {
    forall k :: 0 <= k <= |steps| ==> Exec(w, steps[..k]).config.orderer.state == Maintenance
  }

  /** While a channel is in maintenance its application group stands still, whoever reads and submits. */
  lemma {:induction false} MaintenanceHoldsApplication(w: World, steps: seq<Step>)
    requires DraftsFaithful(w) && MaintenanceThroughout(w, steps)
    ensures Exec(w, steps).config.application == w.config.application
  {
    if |steps| > 0 {
      var front := steps[..|steps| - 1];
      forall k | 0 <= k <= |front| ensures Exec(w, front[..k]).config.orderer.state == Maintenance {
        assert front[..k] == steps[..k];
      }
      MaintenanceHoldsApplication(w, front);
      RunKeepsFaithful(w, front);
      assert steps[..|front|] == front;
      MaintenanceStep(Exec(w, front), steps[|front|]);
    }
  }

  lemma MaintenanceStep(v: World, s: Step)
    requires DraftsFaithful(v) && v.config.orderer.state == Maintenance
    ensures Apply(v, s).config.application == v.config.application
  {
    if s.Submit? && Accepted(v, s.id) && v.drafts[s.id].author.ByMain? {
      MaintenanceRules(v.config, v.drafts[s.id].author.wanted);
    }
  }

  // --------------------------------------------------------------- orderer policies

  predicate BftOrFollower(author: Author) {
    author.ByMain? ==> author.wanted.orderer.consensus.WantBft?
  }

  ghost predicate BftDrafts(w: World) {
    forall id :: id in w.drafts ==> BftOrFollower(w.drafts[id].author)
  }

  ghost predicate SamePolicy(c: Channel, d: Channel, name: string) {
    && (name in d.orderer.policies <==> name in c.orderer.policies)
    && (name in d.orderer.policies ==> d.orderer.policies[name] == c.orderer.policies[name])
  }

  lemma BftUpdateKeepsPolicy(c: Channel, author: Author, name: string)
    requires BftOrFollower(author) && Computed(c, author).Some? && name !in REPLACED
    ensures SamePolicy(c, Computed(c, author).value, name)
  {
  }

  /** Under BFT specs, however edited and with any follower activity, policies that are not replaced never change. */
  lemma {:induction false} BftRunsKeepPolicies(w: World, steps: seq<Step>, name: string)
    requires DraftsFaithful(w) && BftDrafts(w) && name !in REPLACED
    requires forall s :: s in steps && s.Read? ==> BftOrFollower(s.author)
    ensures BftDrafts(Exec(w, steps)) && SamePolicy(w.config, Exec(w, steps).config, name)
  {
    if |steps| > 0 {
      var front := steps[..|steps| - 1];
      var s := steps[|steps| - 1];
      assert s in steps;
      BftRunsKeepPolicies(w, front, name);
      RunKeepsFaithful(w, front);
      var v := Exec(w, front);
      if s.Submit? && Accepted(v, s.id) {
        BftUpdateKeepsPolicy(v.config, v.drafts[s.id].author, name);
      }
    }
  }

  // ---------------------------------------------------------- interference freedom

  /** The organization's record carries what follower spec `f` asks for. */
  ghost predicate Carries(c: Channel, f: FollowerSpec) {
    && f.mspId in c.application.orgs && Parsed(f.revocations)
    && c.application.orgs[f.mspId].anchors == AddAnchors([], f.anchors)
    && c.application.orgs[f.mspId].msp.revocations == Texts(f.revocations)
  }

  /** An author that keeps the organization: a main spec that lists it, or another organization's follower. */
  predicate Spares(author: Author, mspId: string) {
    match author
    case ByMain(w) => mspId in Names(w.application.orgs)
    case ByFollower(g) => g.mspId != mspId
  }

  lemma SparingUpdateKeepsRecord(c: Channel, author: Author, mspId: string)
    requires Spares(author, mspId) && mspId in c.application.orgs && Computed(c, author).Some?
    ensures var d := Computed(c, author).value;
            mspId in d.application.orgs && d.application.orgs[mspId] == c.application.orgs[mspId]
  {
  }

  ghost predicate LateDraftsSpare(w: World, since: nat, mspId: string) {
    forall id :: id in w.drafts && w.drafts[id].base >= since ==> Spares(w.drafts[id].author, mspId)
  }

  lemma {:induction false} RecordSurvives(w: World, steps: seq<Step>, mspId: string)
    requires DraftsFaithful(w) && LateDraftsSpare(w, w.version, mspId) && mspId in w.config.application.orgs
    requires forall s :: s in steps && s.Read? ==> Spares(s.author, mspId)
    ensures var v := Exec(w, steps);
            && v.version >= w.version && LateDraftsSpare(v, w.version, mspId)
            && mspId in v.config.application.orgs
            && v.config.application.orgs[mspId] == w.config.application.orgs[mspId]
  {
    if |steps| > 0 {
      var front := steps[..|steps| - 1];
      var s := steps[|steps| - 1];
      assert s in steps;
      RecordSurvives(w, front, mspId);
      RunKeepsFaithful(w, front);
      var v := Exec(w, front);
      if s.Submit? && Accepted(v, s.id) {
        SparingUpdateKeepsRecord(v.config, v.drafts[s.id].author, mspId);
      }
    }
  }

  lemma {:induction false} ExecAppend(w: World, a: seq<Step>, b: seq<Step>)
    ensures Exec(w, a + b) == Exec(Exec(w, a), b)
  {
    if |b| == 0 {
      assert a + b == a;
    } else {
      ExecAppend(w, a, b[..|b| - 1]);
      assert (a + b)[..|a + b| - 1] == a + b[..|b| - 1];
    }
  }

  /**
   * After an accepted follower update, and as long as the main specs read since list the organization, it keeps
   * exactly that update's anchor peers and revocation list, whatever else is read, submitted or still in flight.
   */
  lemma FollowerUpdateSurvives(w: World, before: seq<Step>, id: nat, later: seq<Step>)
    requires DraftsFaithful(w)
    requires Accepted(Exec(w, before), id) && Exec(w, before).drafts[id].author.ByFollower?
    requires forall s :: s in later && s.Read? ==> Spares(s.author, Exec(w, before).drafts[id].author.spec.mspId)
    ensures Carries(Exec(w, before + [Submit(id)] + later).config, Exec(w, before).drafts[id].author.spec)
  {
    RunKeepsFaithful(w, before);
    var v := Exec(w, before);
    var f := v.drafts[id].author.spec;
    var u := Apply(v, Submit(id));
    assert (before + [Submit(id)])[..|before|] == before;
    assert Exec(w, before + [Submit(id)]) == u;
    assert Carries(u.config, f);
    RunKeepsFaithful(w, before + [Submit(id)]);
    RecordSurvives(u, later, f.mspId);
    ExecAppend(w, before + [Submit(id)], later);
  }

  /** A follower update does not give the main reconciler anything to change. */
  lemma FollowerKeepsMainSteady(c: Channel, w: Wanted, f: FollowerSpec)
    requires Steady(c, w) && FollowerAfter(c, f).Some?
    ensures Steady(FollowerAfter(c, f).value, w)
  {
    var d := FollowerAfter(c, f).value;
    if !EntersMaintenance(c, w) {
      var a := ApplicationAfter(c.application, w.application);
      assert a == c.application;
      assert ApplicationOrgsAfter(d.application.orgs, w.application.orgs) == d.application.orgs;
    }
  }
}
