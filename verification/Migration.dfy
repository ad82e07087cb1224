/**
 * The staged raft-to-BFT migration script (scripts/migrate-channel-raft-bft.ts) running beside the operator.
 *
 * The script patches the channel spec four times and after each patch polls the ConfigMap in which the operator
 * publishes the channel configuration. The operator handles one reconcile at a time: it reads some version of the
 * spec, never an older one than before, updates the channel, and later publishes it. Follower updates may come
 * in at any point.
 */
module Migration {
  import opened Wrappers
  import opened ChannelConfig
  import opened Consenters
  import opened ChannelUpdate
  import opened OrdererOrgs
  import opened Convergence
  import opened ChannelSpec
  import opened Follower
  import opened Delivery

  const V3_0 := "V3_0"

  /** The script's stages, by the patch that opens them. */
  const TO_MAINTENANCE: nat := 1
  const TO_V3_0: nat := 2
  const TO_BFT: nat := 3
  const TO_NORMAL: nat := 4

  datatype Operator = Idle | Active(spec: nat) | Saving

  /** What the script fills in for BFT. */
  datatype Plan = Plan(mapping: seq<BftConsenter>, smartOptions: string)

  /**
   * `specs` are the versions of the spec so far, `seen` the one the operator read last, `published` the ConfigMap.
   * The script has made `stage` patches and is `waiting` for the last to show, unless it `failed`.
   */
  datatype World = World(
    specs: seq<Spec>, seen: nat, config: Channel, published: Channel, operator: Operator,
    stage: nat, waiting: bool, failed: bool, plan: Plan)

  datatype Step =
    | Patch
    | Poll
    | TimeOut
    | Fetch(spec: nat)
    | Update
    | Abort
    | Publish
    | FollowerUpdate(follower: FollowerSpec)

  /** The script's patches, in order. */
  function Patched(s: Spec, stage: nat, plan: Plan): Spec {
    if stage == TO_MAINTENANCE then s.(state := STATE_MAINTENANCE)
    else if stage == TO_V3_0 then s.(capabilities := [V3_0])
    else if stage == TO_BFT then s.(ordererType := BFT, mapping := plan.mapping, smartOptions := plan.smartOptions)
    else s.(state := STATE_NORMAL)
  }

  /** What each stage waits to read in the ConfigMap. */
  predicate Shows(c: Channel, stage: nat) {
    if stage == TO_MAINTENANCE then c.orderer.state == Maintenance
    else if stage == TO_V3_0 then c.capabilities == {V3_0}
    else if stage == TO_BFT then c.orderer.consensus.Bft?
    else c.orderer.state == Normal
  }

  /** What the operator makes of the channel for a spec, if it gets that far. */
  function Reconciled(c: Channel, s: Spec): Option<Channel> {
    var w := ToWanted(s);
    if w.Err? then None
    else
      var d := Reconcile(c, w.value);
      if d.Err? then None else Some(d.value)
  }

  function Apply(w: World, s: Step): World {
    match s
    case Patch =>
      if w.failed || w.waiting || w.stage >= TO_NORMAL || |w.specs| == 0 then w
      else
        w.(specs := w.specs + [Patched(w.specs[|w.specs| - 1], w.stage + 1, w.plan)],
           stage := w.stage + 1, waiting := true)
    case Poll =>
      if !w.failed && w.waiting && Shows(w.published, w.stage) then w.(waiting := false) else w
    case TimeOut =>
      // the two state waits only log a timeout; the other two throw
      if w.failed || !w.waiting then w
      else if w.stage == TO_MAINTENANCE || w.stage == TO_NORMAL then w.(waiting := false)
      else w.(failed := true)
    case Fetch(k) =>
      if w.operator == Idle && w.seen <= k < |w.specs| then w.(operator := Active(k), seen := k) else w
    case Update =>
      if !w.operator.Active? || w.operator.spec >= |w.specs| then w
      else
        var d := Reconciled(w.config, w.specs[w.operator.spec]);
        if d.None? then w.(operator := Idle) else w.(config := d.value, operator := Saving)
    case Abort => w.(operator := Idle)
    case Publish => if w.operator == Saving then w.(published := w.config, operator := Idle) else w
    case FollowerUpdate(f) =>
      var d := FollowerAfter(w.config, f);
      if d.None? then w else w.(config := d.value)
  }

  function Exec(w: World, steps: seq<Step>): World
    decreases |steps|
  {
    if |steps| == 0 then w else Exec(Apply(w, steps[0]), steps[1..])
  }

  /** A raft channel in normal state, with spec and ConfigMap in step; nobody active. */
  ghost predicate Init(w: World) {
    && |w.specs| == 1 && w.seen == 0 && w.operator == Idle && w.stage == 0 && !w.waiting && !w.failed
    && w.published == w.config
    && w.config.orderer.state == Normal && w.specs[0].state != STATE_MAINTENANCE
    && w.config.orderer.consensus.Raft? && w.specs[0].ordererType == ETCDRAFT
  }

  /** If the channel already has exactly V3_0, the spec does not ask for something else. */
  predicate CapabilitiesInStep(w: World)
    requires |w.specs| >= 1
  {
    w.config.capabilities == {V3_0} ==> Elements(w.specs[0].capabilities) == {V3_0}
  }

  predicate NoTimeOut(steps: seq<Step>) {
    TimeOut !in steps
  }

  predicate SafeStep(w: World, s: Step) {
    SafeChange(w.config, Apply(w, s).config)
  }

  /** A change of consensus type starts and ends in maintenance and under V3_0. */
  predicate SafeChange(c: Channel, d: Channel) {
    c.orderer.consensus.Raft? != d.orderer.consensus.Raft? ==>
      InMaintenance(c) && InMaintenance(d) && c.capabilities == {V3_0} && d.capabilities == {V3_0}
  }

  // ------------------------------------------------------------------ invariant

  predicate AsksMaintenance(k: nat) {
    TO_MAINTENANCE <= k < TO_NORMAL
  }

  ghost predicate SpecsOk(w: World) {
    && |w.specs| == w.stage + 1 && w.stage <= TO_NORMAL
    && (forall k :: 0 <= k < |w.specs| ==>
          && (w.specs[k].state == STATE_MAINTENANCE <==> AsksMaintenance(k))
          && w.specs[k].ordererType == (if k >= TO_BFT then BFT else ETCDRAFT)
          && Elements(w.specs[k].capabilities) == (if k >= TO_V3_0 then {V3_0} else Elements(w.specs[0].capabilities)))
  }

  /** Stage `k` is over: its effect was read in the ConfigMap. */
  predicate Passed(w: World, k: nat) {
    w.stage > k || (w.stage == k && !w.waiting)
  }

  ghost predicate StaysInMaintenance(w: World) {
    w.seen >= TO_MAINTENANCE && (w.seen < TO_NORMAL ==> InMaintenance(w.config))
  }

  ghost predicate Inv(w: World) {
    && SpecsOk(w)
    && w.seen < |w.specs| && (w.operator.Active? ==> w.operator.spec == w.seen)
    && (InMaintenance(w.config) ==> w.seen >= TO_MAINTENANCE)
    && (InMaintenance(w.published) || Passed(w, TO_MAINTENANCE) ==> StaysInMaintenance(w))
    && (w.config.capabilities == {V3_0} ==> Elements(w.specs[0].capabilities) == {V3_0} || w.seen >= TO_V3_0)
    && (w.published.capabilities == {V3_0} || Passed(w, TO_V3_0) ==> w.config.capabilities == {V3_0})
    && (w.published.orderer.consensus.Bft? || Passed(w, TO_BFT) ==> w.config.orderer.consensus.Bft?)
  }

  /** What one reconcile of `s` makes of the three fields the migration is about. */
  predicate Took(c: Channel, d: Channel, s: Spec) {
    && (InMaintenance(d) <==> s.state == STATE_MAINTENANCE)
    && (d.orderer.consensus.Bft? <==> s.ordererType == BFT)
    && (s.ordererType == BFT ==> d.orderer.consensus == Bft(s.smartOptions) && d.orderer.mapping == s.mapping)
    && (c.orderer.consensus.Bft? ==> d.orderer.consensus.Bft?)
    && d.capabilities == (if !InMaintenance(c) && InMaintenance(d) then c.capabilities else Elements(s.capabilities))
  }

  lemma ReconciledFields(c: Channel, s: Spec)
    requires Reconciled(c, s).Some?
    ensures Took(c, Reconciled(c, s).value, s)
  {
    ReconcileDecides(c, ToWanted(s).value);
    OrdererDelivers(c.orderer, s);
  }

  /** An update step at a glance: nothing, giving up, or the fields of the spec read last. */
  ghost predicate Updated(w: World, v: World) {
    && v == w.(operator := v.operator, config := v.config) && (v.operator.Active? ==> v.operator == w.operator)
    && (v.config == w.config
        || (w.operator.Active? && w.operator.spec < |w.specs| && Took(w.config, v.config, w.specs[w.operator.spec])))
  }

  lemma UpdateStep(w: World)
    ensures Updated(w, Apply(w, Update))
  {
    if w.operator.Active? && w.operator.spec < |w.specs| && Reconciled(w.config, w.specs[w.operator.spec]).Some? {
      ReconciledFields(w.config, w.specs[w.operator.spec]);
    }
  }

  lemma UpdatedKeepsInv(w: World, v: World)
    requires Inv(w) && Updated(w, v)
    ensures Inv(v) && SafeChange(w.config, v.config)
  {
  }

  lemma PatchKeepsSpecs(w: World)
    requires SpecsOk(w)
    ensures SpecsOk(Apply(w, Patch))
  {
    if !w.failed && !w.waiting && w.stage < TO_NORMAL {
      assert Elements([V3_0]) == {V3_0};
      assert Apply(w, Patch).specs[..|w.specs|] == w.specs;
    }
  }

  lemma PatchKeepsInv(w: World)
    requires Inv(w)
    ensures Inv(Apply(w, Patch))
  {
    PatchKeepsSpecs(w);
  }

  lemma FollowerKeepsInv(w: World, f: FollowerSpec)
    requires Inv(w)
    ensures Inv(Apply(w, FollowerUpdate(f))) && SafeStep(w, FollowerUpdate(f))
  {
    var v := Apply(w, FollowerUpdate(f));
    assert v.config.orderer == w.config.orderer && v.config.capabilities == w.config.capabilities;
  }

  lemma FetchKeepsInv(w: World, k: nat)
    requires Inv(w)
    ensures Inv(Apply(w, Fetch(k)))
  {
  }

  lemma EndOfReconcileKeepsInv(w: World, s: Step)
    requires Inv(w) && (s.Abort? || s.Publish?)
    ensures Inv(Apply(w, s))
  {
  }

  lemma PollKeepsInv(w: World)
    requires Inv(w)
    ensures Inv(Apply(w, Poll))
  {
  }

  lemma StepKeepsInv(w: World, s: Step)
    requires Inv(w) && !s.TimeOut?
    ensures Inv(Apply(w, s)) && SafeStep(w, s)
  {
    match s
    case Patch => PatchKeepsInv(w);
    case Poll => PollKeepsInv(w);
    case Update =>
      UpdateStep(w);
      UpdatedKeepsInv(w, Apply(w, s));
    case FollowerUpdate(f) => FollowerKeepsInv(w, f);
    case Fetch(k) => FetchKeepsInv(w, k);
    case _ => EndOfReconcileKeepsInv(w, s);
  }

  lemma {:induction false} RunKeepsInv(w: World, steps: seq<Step>)
    requires Inv(w) && NoTimeOut(steps)
    ensures Inv(Exec(w, steps))
    decreases |steps|
  {
    if |steps| > 0 {
      StepKeepsInv(w, steps[0]);
      RunKeepsInv(Apply(w, steps[0]), steps[1..]);
    }
  }

  /** Whatever the interleaving, as long as no wait times out, the consensus type changes only safely. */
  lemma ConsensusChangesSafely(w: World, steps: seq<Step>, s: Step)
    requires Init(w) && CapabilitiesInStep(w) && NoTimeOut(steps) && !s.TimeOut?
    ensures SafeStep(Exec(w, steps), s)
  {
    assert Inv(w);
    RunKeepsInv(w, steps);
    StepKeepsInv(Exec(w, steps), s);
  }

  // ------------------------------------------------- when it fails, and that it ends

  /** Every reconcile of the migration can succeed. */
  ghost predicate Migratable(w: World)
    requires |w.specs| >= 1
  {
    && |w.plan.mapping| > 4
    && AddressUnique(ToConsenters(w.specs[0].consenters))
    && OrgsReady(w.config.orderer.orgs, w.specs[0].ordererOrgs)
  }

  /** The specs share consenters and organizations, and the channel's organizations can be read. */
  ghost predicate StillMigratable(w: World) {
    && |w.plan.mapping| > 4
    && (forall k :: 0 <= k < |w.specs| ==>
          && AddressUnique(ToConsenters(w.specs[k].consenters))
          && OrgsReady(w.config.orderer.orgs, w.specs[k].ordererOrgs)
          && w.specs[k].ordererOrgs == w.specs[0].ordererOrgs
          && (w.specs[k].ordererType == BFT ==>
                w.specs[k].mapping == w.plan.mapping && w.specs[k].smartOptions == w.plan.smartOptions))
  }

  /** A spec version the operator can act on now. */
  ghost predicate Actionable(w: World, k: nat) {
    && k < |w.specs| && w.operator == Idle && w.seen <= k
    && (w.specs[k].ordererType == BFT || (w.specs[k].ordererType == ETCDRAFT && w.config.orderer.consensus.Raft?))
  }

  lemma ReconcileSucceeds(w: World, k: nat)
    requires StillMigratable(w) && Actionable(w, k)
    ensures Reconciled(w.config, w.specs[k]).Some?
    ensures OrgsReady(Reconciled(w.config, w.specs[k]).value.orderer.orgs, w.specs[0].ordererOrgs)
  {
    ReconcilePass(w.config, ToWanted(w.specs[k]).value);
  }

  /** Fetch and update: the channel takes the fields of spec `k`. */
  lemma Acts(w: World, k: nat)
    requires StillMigratable(w) && Actionable(w, k)
    ensures var v := Apply(Apply(w, Fetch(k)), Update);
            && Reconciled(w.config, w.specs[k]).Some?
            && v == w.(operator := Saving, seen := k, config := Reconciled(w.config, w.specs[k]).value)
            && StillMigratable(v)
  {
    ReconcileSucceeds(w, k);
    ReconciledFields(w.config, w.specs[k]);
  }

  lemma Patches(w: World)
    requires StillMigratable(w) && |w.specs| == w.stage + 1 && !w.failed && !w.waiting && w.stage < TO_NORMAL
    ensures var v := Apply(w, Patch);
            && v == w.(specs := w.specs + [Patched(w.specs[w.stage], w.stage + 1, w.plan)],
                       stage := w.stage + 1, waiting := true)
            && StillMigratable(v)
  {
  }

  lemma ExecCons(w: World, s: Step, rest: seq<Step>)
    ensures Exec(w, [s] + rest) == Exec(Apply(w, s), rest)
  {
    assert ([s] + rest)[1..] == rest;
  }

  lemma ExecFive(w: World, a: Step, b: Step, c: Step, d: Step, e: Step)
    ensures Exec(w, [a, b, c, d, e]) == Apply(Apply(Apply(Apply(Apply(w, a), b), c), d), e)
  {
    assert [a, b, c, d, e] == [a] + [b, c, d, e] && [b, c, d, e] == [b] + [c, d, e];
    assert [c, d, e] == [c] + [d, e] && [d, e] == [d] + [e] && [e] == [e] + [];
    ExecCons(w, a, [b, c, d, e]);
    ExecCons(Apply(w, a), b, [c, d, e]);
    ExecCons(Apply(Apply(w, a), b), c, [d, e]);
    ExecCons(Apply(Apply(Apply(w, a), b), c), d, [e]);
    ExecCons(Apply(Apply(Apply(Apply(w, a), b), c), d), e, []);
  }

  lemma {:induction false} ExecAppend(w: World, a: seq<Step>, b: seq<Step>)
    ensures Exec(w, a + b) == Exec(Exec(w, a), b)
    decreases |a|
  {
    if |a| == 0 {
      assert a + b == b;
    } else {
      assert (a + b)[0] == a[0] && (a + b)[1..] == a[1..] + b;
      ExecAppend(Apply(w, a[0]), a[1..], b);
    }
  }

  /** One full round: patch, reconcile, publish, and the script sees it. */
  function Round(k: nat): seq<Step> {
    [Patch, Fetch(k), Update, Publish, Poll]
  }

  ghost predicate AfterRound(w: World, k: nat) {
    && SpecsOk(w) && StillMigratable(w) && w.stage == k && w.seen == k
    && !w.waiting && !w.failed && w.operator == Idle && w.published == w.config && Follows(w.config, k, w.plan)
  }

  /** The fields of `d` that spec version `k` asks for, when the channel was in maintenance or stays out of it. */
  predicate Follows(d: Channel, k: nat, plan: Plan) {
    && (InMaintenance(d) <==> AsksMaintenance(k))
    && (d.orderer.consensus.Bft? <==> k >= TO_BFT)
    && (k >= TO_BFT ==> d.orderer.consensus == Bft(plan.smartOptions) && d.orderer.mapping == plan.mapping)
    && (k >= TO_V3_0 ==> d.capabilities == {V3_0})
  }

  lemma RoundReconciles(w: World, k: nat)
    requires AfterRound(w, k) && k < 4
    ensures var a := Apply(w, Patch); var c := Apply(Apply(a, Fetch(k + 1)), Update);
            && a.stage == k + 1 && a.waiting && !a.failed && SpecsOk(a)
            && c == a.(operator := Saving, seen := k + 1, config := c.config)
            && StillMigratable(c) && Follows(c.config, k + 1, c.plan)
  {
    Patches(w);
    PatchKeepsSpecs(w);
    ReconcilesPatched(Apply(w, Patch), w.config, k + 1);
  }

  lemma ReconcilesPatched(a: World, c: Channel, k: nat)
    requires SpecsOk(a) && StillMigratable(a) && a.stage == k && a.operator == Idle && a.seen < k && a.config == c
    requires 1 <= k && Follows(c, k - 1, a.plan)
    ensures var v := Apply(Apply(a, Fetch(k)), Update);
            && v == a.(operator := Saving, seen := k, config := v.config)
            && StillMigratable(v) && Follows(v.config, k, v.plan)
  {
    Acts(a, k);
    ReconciledFields(a.config, a.specs[k]);
  }

  lemma RoundPublishes(c: World, k: nat)
    requires SpecsOk(c) && StillMigratable(c) && Follows(c.config, k, c.plan) && 1 <= k
    requires c.stage == k && c.seen == k && c.waiting && !c.failed && c.operator == Saving
    ensures AfterRound(Apply(Apply(c, Publish), Poll), k)
  {
    var e := Apply(Apply(c, Publish), Poll);
    assert e == c.(published := c.config, operator := Idle, waiting := false);
    assert e.specs == c.specs && e.config == c.config;
  }

  lemma RoundAdvances(w: World, k: nat)
    requires 1 <= k <= TO_NORMAL && AfterRound(w, k - 1)
    ensures AfterRound(Exec(w, Round(k)), k)
  {
    ExecFive(w, Patch, Fetch(k), Update, Publish, Poll);
    RoundReconciles(w, k - 1);
    RoundPublishes(Apply(Apply(Apply(w, Patch), Fetch(k)), Update), k);
  }

  /** The rounds after stage `from` up to stage `k`. */
  function Rounds(from: nat, k: nat): seq<Step> {
    if k <= from then [] else Rounds(from, k - 1) + Round(k)
  }

  lemma {:induction false} RoundsAdvance(w: World, from: nat, k: nat)
    requires AfterRound(w, from) && from <= k <= TO_NORMAL
    ensures AfterRound(Exec(w, Rounds(from, k)), k)
  {
    if k == from {
      assert Rounds(from, k) == [];
    } else {
      RoundsAdvance(w, from, k - 1);
      OneRoundFurther(w, from, k);
    }
  }

  lemma OneRoundFurther(w: World, from: nat, k: nat)
    requires from < k <= TO_NORMAL && AfterRound(Exec(w, Rounds(from, k - 1)), k - 1)
    ensures AfterRound(Exec(w, Rounds(from, k)), k)
  {
    var before := Rounds(from, k - 1);
    OneMoreRound(w, before, Exec(w, before), k);
    assert Rounds(from, k) == before + Round(k);
  }

  lemma OneMoreRound(w: World, before: seq<Step>, v: World, k: nat)
    requires v == Exec(w, before) && 1 <= k <= TO_NORMAL && AfterRound(v, k - 1)
    ensures AfterRound(Exec(w, before + Round(k)), k)
  {
    RoundAdvances(v, k);
    ExecAppend(w, before, Round(k));
  }

  lemma StartsInRound(w: World)
    requires Init(w) && Migratable(w)
    ensures AfterRound(w, 0)
  {
  }

  lemma {:induction false} RunKeepsPlan(w: World, steps: seq<Step>)
    ensures Exec(w, steps).plan == w.plan
    decreases |steps|
  {
    if |steps| > 0 {
      assert Apply(w, steps[0]).plan == w.plan;
      RunKeepsPlan(Apply(w, steps[0]), steps[1..]);
    }
  }

  /** The spec after `k` patches: the script's fields and nothing else of it. */
  ghost predicate IsVersion(s: Spec, first: Spec, k: nat, plan: Plan) {
    s == first.(
           state := if k < TO_MAINTENANCE then first.state
                    else if k < TO_NORMAL then STATE_MAINTENANCE
                    else STATE_NORMAL,
           capabilities := if k < TO_V3_0 then first.capabilities else [V3_0],
           ordererType := if k < TO_BFT then first.ordererType else BFT,
           mapping := if k < TO_BFT then first.mapping else plan.mapping,
           smartOptions := if k < TO_BFT then first.smartOptions else plan.smartOptions)
  }

  ghost predicate AreVersions(w: World) {
    && |w.specs| == w.stage + 1 && w.stage <= TO_NORMAL
    && forall k :: 0 <= k < |w.specs| ==> IsVersion(w.specs[k], w.specs[0], k, w.plan)
  }

  lemma PatchMakesVersion(w: World)
    requires AreVersions(w)
    ensures AreVersions(Apply(w, Patch)) && Apply(w, Patch).specs[0] == w.specs[0]
  {
    if !w.failed && !w.waiting && w.stage < TO_NORMAL {
      assert IsVersion(w.specs[w.stage], w.specs[0], w.stage, w.plan);
      assert Apply(w, Patch).specs[..|w.specs|] == w.specs;
    }
  }

  lemma OthersLeaveSpecs(w: World, s: Step)
    requires !s.Patch?
    ensures var v := Apply(w, s); v.specs == w.specs && v.stage == w.stage && v.plan == w.plan
  {
  }

  lemma StepMakesVersion(w: World, s: Step)
    requires AreVersions(w)
    ensures AreVersions(Apply(w, s)) && Apply(w, s).specs[0] == w.specs[0]
  {
    if s.Patch? { PatchMakesVersion(w); } else { OthersLeaveSpecs(w, s); }
  }

  /** In every run the script writes these versions of the spec, one after the other, and no others. */
  lemma {:induction false} SpecsAreVersions(w: World, steps: seq<Step>)
    requires AreVersions(w)
    ensures AreVersions(Exec(w, steps)) && Exec(w, steps).specs[0] == w.specs[0]
    decreases |steps|
  {
    if |steps| > 0 {
      StepMakesVersion(w, steps[0]);
      SpecsAreVersions(Apply(w, steps[0]), steps[1..]);
    }
  }

  /** When nothing interferes the migration completes: BFT, normal state, V3_0. */
  lemma MigrationCompletes(w: World)
    requires Init(w) && Migratable(w)
    ensures var v := Exec(w, Rounds(w.stage, TO_NORMAL));
            && v.stage == TO_NORMAL && !v.waiting && !v.failed
            && v.config.orderer.consensus == Bft(w.plan.smartOptions) && v.config.orderer.mapping == w.plan.mapping
            && v.config.orderer.state == Normal && v.config.capabilities == {V3_0}
  {
    StartsInRound(w);
    RoundsAdvance(w, w.stage, TO_NORMAL);
    RunKeepsPlan(w, Rounds(w.stage, TO_NORMAL));
  }

  // -------------------------------------------------- completion from anywhere

  /** What every run keeps, time-outs included: all that is needed to steer it to completion. */
  ghost predicate Steerable(w: World) {
    && SpecsOk(w) && StillMigratable(w)
    && w.seen < |w.specs| && (w.operator.Active? ==> w.operator.spec == w.seen)
    && (w.config.orderer.consensus.Bft? ==> w.seen >= TO_BFT)
    && (w.waiting ==> w.stage >= TO_MAINTENANCE)
  }

  /** A reconcile that succeeds leaves the channel's organizations readable. */
  lemma ReconciledStaysReady(w: World, k: nat)
    requires StillMigratable(w) && k < |w.specs| && Reconciled(w.config, w.specs[k]).Some?
    ensures OrgsReady(Reconciled(w.config, w.specs[k]).value.orderer.orgs, w.specs[0].ordererOrgs)
  {
    ReconcilePass(w.config, ToWanted(w.specs[k]).value);
  }

  lemma UpdateKeepsSteerable(w: World)
    requires Steerable(w)
    ensures Steerable(Apply(w, Update))
  {
    if w.operator.Active? && Reconciled(w.config, w.specs[w.operator.spec]).Some? {
      ReconciledStaysReady(w, w.operator.spec);
      ReconciledFields(w.config, w.specs[w.operator.spec]);
    }
  }

  lemma PatchKeepsSteerable(w: World)
    requires Steerable(w)
    ensures Steerable(Apply(w, Patch))
  {
    PatchKeepsSpecs(w);
    if !w.failed && !w.waiting && w.stage < TO_NORMAL {
      Patches(w);
    }
  }

  lemma FollowerKeepsSteerable(w: World, f: FollowerSpec)
    requires Steerable(w)
    ensures Steerable(Apply(w, FollowerUpdate(f)))
  {
    assert Apply(w, FollowerUpdate(f)).config.orderer == w.config.orderer;
  }

  lemma StepKeepsSteerable(w: World, s: Step)
    requires Steerable(w)
    ensures Steerable(Apply(w, s))
  {
    match s
    case Patch => PatchKeepsSteerable(w);
    case Update => UpdateKeepsSteerable(w);
    case FollowerUpdate(f) => FollowerKeepsSteerable(w, f);
    case _ =>
  }

  lemma {:induction false} RunKeepsSteerable(w: World, steps: seq<Step>)
    requires Steerable(w)
    ensures Steerable(Exec(w, steps))
    decreases |steps|
  {
    if |steps| > 0 {
      StepKeepsSteerable(w, steps[0]);
      RunKeepsSteerable(Apply(w, steps[0]), steps[1..]);
    }
  }

  /** The operator ends what it is at, and nothing else moves. */
  lemma EndsReconcile(w: World)
    requires Steerable(w)
    ensures var v := Apply(Apply(w, Update), Publish);
            && Steerable(v) && v.operator == Idle
            && v.specs == w.specs && v.stage == w.stage && v.waiting == w.waiting && v.failed == w.failed
  {
    UpdateStep(w);
    UpdateLeavesActive(w);
    StepKeepsSteerable(w, Update);
    PublishEnds(Apply(w, Update));
  }

  lemma UpdateLeavesActive(w: World)
    requires Steerable(w)
    ensures !Apply(w, Update).operator.Active?
  {
  }

  lemma PublishEnds(w: World)
    requires Steerable(w) && !w.operator.Active?
    ensures var v := Apply(w, Publish);
            && Steerable(v) && v.operator == Idle
            && v.specs == w.specs && v.stage == w.stage && v.waiting == w.waiting && v.failed == w.failed
  {
    StepKeepsSteerable(w, Publish);
  }

  /** A whole reconcile of the newest spec. */
  lemma ReconcilesNewest(w: World, k: nat)
    requires Steerable(w) && w.operator == Idle && k == w.stage
    ensures var v := Apply(Apply(Apply(w, Fetch(k)), Update), Publish);
            && Steerable(v) && v.operator == Idle && v.seen == k && v.published == v.config
            && v.specs == w.specs && v.stage == w.stage && v.waiting == w.waiting && v.failed == w.failed
            && Took(w.config, v.config, w.specs[k])
  {
    Acts(w, k);
    ReconciledFields(w.config, w.specs[k]);
    var a := Apply(Apply(w, Fetch(k)), Update);
    assert Apply(a, Publish) == a.(published := a.config, operator := Idle);
  }

  /**
   * Two reconciles of the newest spec, the first of which may be needed to enter maintenance; the script sees the
   * second.
   */
  function Settle(k: nat): seq<Step> {
    [Update, Publish] + ([Fetch(k), Update, Publish] + ([Fetch(k), Update, Publish] + [Poll]))
  }

  lemma TwiceTookFollows(a: Channel, b: Channel, c: Channel, w: World, k: nat)
    requires SpecsOk(w) && StillMigratable(w) && k < |w.specs| && Took(a, b, w.specs[k]) && Took(b, c, w.specs[k])
    ensures Follows(c, k, w.plan)
  {
  }

  lemma PollShows(w: World, k: nat)
    requires Steerable(w) && k == w.stage && w.seen == k && w.operator == Idle && w.published == w.config && !w.failed
    requires Follows(w.config, k, w.plan)
    ensures AfterRound(Apply(w, Poll), k)
  {
    assert Apply(w, Poll) == w.(waiting := false);
  }

  lemma Settles(w: World, k: nat)
    requires Steerable(w) && !w.failed && k == w.stage
    ensures AfterRound(Exec(w, Settle(k)), k)
  {
    EndsReconcile(w);
    var a := Apply(Apply(w, Update), Publish);
    ReconcilesNewest(a, k);
    var b := Apply(Apply(Apply(a, Fetch(k)), Update), Publish);
    ReconcilesNewest(b, k);
    var c := Apply(Apply(Apply(b, Fetch(k)), Update), Publish);
    TwiceTookFollows(a.config, b.config, c.config, w, k);
    PollShows(c, k);
    SettleSteps(w, k);
  }

  lemma SettleSteps(w: World, k: nat)
    ensures var a := Apply(Apply(w, Update), Publish);
            var b := Apply(Apply(Apply(a, Fetch(k)), Update), Publish);
            var c := Apply(Apply(Apply(b, Fetch(k)), Update), Publish);
            Exec(w, Settle(k)) == Apply(c, Poll)
  {
    var round := [Fetch(k), Update, Publish];
    var a := Apply(Apply(w, Update), Publish);
    var b := Apply(Apply(Apply(a, Fetch(k)), Update), Publish);
    var c := Apply(Apply(Apply(b, Fetch(k)), Update), Publish);
    ExecTwo(w, Update, Publish);
    ExecThree(a, Fetch(k), Update, Publish);
    ExecThree(b, Fetch(k), Update, Publish);
    ExecAppend(w, [Update, Publish], round + (round + [Poll]));
    ExecAppend(a, round, round + [Poll]);
    ExecAppend(b, round, [Poll]);
    assert [Poll] == [Poll] + [];
    ExecCons(c, Poll, []);
  }

  lemma FinishInTwo(w: World, a: seq<Step>, b: seq<Step>)
    requires AfterRound(Exec(Exec(w, a), b), TO_NORMAL)
    ensures AfterRound(Exec(w, a + b), TO_NORMAL)
  {
    ExecAppend(w, a, b);
  }

  predicate Completed(w: World, plan: Plan) {
    && w.stage == TO_NORMAL && !w.waiting && !w.failed
    && w.config.orderer.consensus == Bft(plan.smartOptions) && w.config.orderer.mapping == plan.mapping
    && w.config.orderer.state == Normal && w.config.capabilities == {V3_0}
  }

  lemma LastRoundCompletes(w: World)
    requires AfterRound(w, TO_NORMAL)
    ensures Completed(w, w.plan)
  {
  }

  /** Steps in which nothing fails and no follower comes in. */
  predicate Smooth(steps: seq<Step>) {
    forall s :: s in steps ==> !s.TimeOut? && !s.Abort? && !s.FollowerUpdate?
  }

  lemma {:induction false} RoundsSmooth(from: nat, k: nat)
    ensures Smooth(Rounds(from, k))
  {
    if k > from { RoundsSmooth(from, k - 1); }
  }

  lemma {:induction false} FailureIsFinal(w: World, steps: seq<Step>)
    requires w.failed
    ensures Exec(w, steps).failed
    decreases |steps|
  {
    if |steps| > 0 {
      assert Apply(w, steps[0]).failed;
      FailureIsFinal(Apply(w, steps[0]), steps[1..]);
    }
  }

  /**
   * From wherever a run has got to, through any time-outs, aborts and follower updates, the migration can still
   * complete exactly when the script has not failed; and then it can without further trouble.
   */
  lemma CanCompleteIffNotFailed(w: World, steps: seq<Step>)
    requires Init(w) && Migratable(w)
    ensures (exists rest :: Completed(Exec(w, steps + rest), w.plan)) <==> !Exec(w, steps).failed
    ensures !Exec(w, steps).failed ==> exists rest :: Smooth(rest) && Completed(Exec(w, steps + rest), w.plan)
  {
    StartsInRound(w);
    RunKeepsSteerable(w, steps);
    var v := Exec(w, steps);
    if v.failed {
      forall rest: seq<Step> ensures !Completed(Exec(w, steps + rest), w.plan) {
        ExecAppend(w, steps, rest);
        FailureIsFinal(v, rest);
      }
    } else {
      RunKeepsPlan(w, steps);
      var rest := Completion(v);
      ExecAppend(w, steps, rest);
    }
  }

  lemma Completion(v: World) returns (rest: seq<Step>)
    requires Steerable(v) && !v.failed
    ensures Smooth(rest) && Completed(Exec(v, rest), v.plan)
  {
    var k := v.stage;
    SettlesAndFinishes(v, k);
    rest := Settle(k) + Rounds(k, TO_NORMAL);
    CompletesIn(v, rest);
    RoundsSmooth(k, TO_NORMAL);
    assert Smooth(Settle(k));
  }

  lemma SettlesAndFinishes(v: World, k: nat)
    requires Steerable(v) && !v.failed && k == v.stage
    ensures AfterRound(Exec(v, Settle(k) + Rounds(k, TO_NORMAL)), TO_NORMAL)
  {
    Settles(v, k);
    RoundsAdvance(Exec(v, Settle(k)), k, TO_NORMAL);
    FinishInTwo(v, Settle(k), Rounds(k, TO_NORMAL));
  }

  lemma CompletesIn(v: World, rest: seq<Step>)
    requires AfterRound(Exec(v, rest), TO_NORMAL)
    ensures Completed(Exec(v, rest), v.plan)
  {
    LastRoundCompletes(Exec(v, rest));
    RunKeepsPlan(v, rest);
  }

  // ------------------------------------------------------- five orderers or none

  /** With too small a mapping the operator refuses every BFT spec, so the channel stays on raft. */
  ghost predicate KeptOnRaft(w: World) {
    && w.config.orderer.consensus.Raft? && |w.plan.mapping| <= 4
    && forall k :: 0 <= k < |w.specs| && w.specs[k].ordererType == BFT ==> |w.specs[k].mapping| <= 4
  }

  lemma UpdateStaysOnRaft(w: World)
    requires KeptOnRaft(w)
    ensures KeptOnRaft(Apply(w, Update))
  {
    if w.operator.Active? && w.operator.spec < |w.specs| && Reconciled(w.config, w.specs[w.operator.spec]).Some? {
      ReconciledFields(w.config, w.specs[w.operator.spec]);
    }
  }

  lemma FollowerStaysOnRaft(w: World, f: FollowerSpec)
    requires KeptOnRaft(w)
    ensures KeptOnRaft(Apply(w, FollowerUpdate(f)))
  {
    assert Apply(w, FollowerUpdate(f)).config.orderer == w.config.orderer;
  }

  lemma {:induction false} RunStaysOnRaft(w: World, steps: seq<Step>)
    requires KeptOnRaft(w)
    ensures KeptOnRaft(Exec(w, steps))
    decreases |steps|
  {
    if |steps| > 0 {
      match steps[0] {
        case Update => UpdateStaysOnRaft(w);
        case FollowerUpdate(f) => FollowerStaysOnRaft(w, f);
        case _ =>
      }
      RunStaysOnRaft(Apply(w, steps[0]), steps[1..]);
    }
  }

  /**
   * Some run reaches BFT exactly when the script maps more than four orderers: four, the announced minimum, are too
   * few.
   */
  lemma BftReachableIffFiveOrderers(w: World)
    requires Init(w) && AddressUnique(ToConsenters(w.specs[0].consenters))
    requires OrgsReady(w.config.orderer.orgs, w.specs[0].ordererOrgs)
    ensures (exists steps: seq<Step> :: Exec(w, steps).config.orderer.consensus.Bft?) <==> |w.plan.mapping| > 4
  {
    if |w.plan.mapping| > 4 {
      MigrationCompletes(w);
    } else {
      forall steps: seq<Step> ensures Exec(w, steps).config.orderer.consensus.Raft? {
        RunStaysOnRaft(w, steps);
      }
    }
  }

  // ------------------------------------------------------- when it is not safe

  /**
   * The ConfigMap can lag behind: with V3_0 already on the channel but not in the spec, the operator takes the
   * capability away in maintenance while the script still reads the old ConfigMap, and the change of consensus
   * then comes together with the return of the capability.
   */
  function LaggingConfigMap(entering: nat): seq<Step> {
    Round(entering) + (Lag(entering) + Jump(entering + 2))
  }

  /** The operator acts on spec `k` again while the script patches twice. */
  function Lag(k: nat): seq<Step> {
    [Fetch(k), Update, Patch, Poll, Patch]
  }

  /** The operator publishes and turns to spec `k`. */
  function Jump(k: nat): seq<Step> {
    [Publish, Fetch(k)]
  }

  lemma ExecTwo(w: World, a: Step, b: Step)
    ensures Exec(w, [a, b]) == Apply(Apply(w, a), b)
  {
    assert [a, b] == [a] + [b] && [b] == [b] + [];
    ExecCons(w, a, [b]);
    ExecCons(Apply(w, a), b, []);
  }

  /** The capability goes while the script moves on to the change of consensus. */
  lemma LagHidesCapability(w: World)
    requires AfterRound(w, TO_MAINTENANCE)
    requires w.config.capabilities == {V3_0} && Elements(w.specs[w.stage].capabilities) != {V3_0}
    ensures var v := Exec(w, Lag(w.stage)); ReadyToJump(v) && v.stage == w.stage + 2
  {
    ExecFive(w, Fetch(w.stage), Update, Patch, Poll, Patch);
    Acts(w, w.stage);
    ReconciledFields(w.config, w.specs[w.stage]);
    var a := Apply(Apply(w, Fetch(w.stage)), Update);
    Patches(a);
    var b := Apply(Apply(a, Patch), Poll);
    assert b == Apply(a, Patch).(waiting := false);
    Patches(b);
  }

  /** The script has asked for BFT; the channel is on raft and without the capability. */
  ghost predicate ReadyToJump(b: World) {
    && StillMigratable(b) && b.stage == TO_BFT && |b.specs| == b.stage + 1 && b.specs[b.stage].ordererType == BFT
    && b.seen <= b.stage && b.operator == Saving && b.config.orderer.consensus.Raft? && b.config.capabilities != {V3_0}
  }

  lemma LagEndsUnsafe(b: World)
    requires ReadyToJump(b)
    ensures UnsafeAt(b, Jump(b.stage))
  {
    ExecTwo(b, Publish, Fetch(b.stage));
    var c := Apply(b, Publish);
    assert c == b.(published := b.config, operator := Idle);
    ActsOnBft(c);
  }

  lemma LaggingIsUnsafe(w: World)
    requires Init(w) && Migratable(w) && !CapabilitiesInStep(w)
    ensures UnsafeAt(w, LaggingConfigMap(w.stage + 1))
  {
    var entering := w.stage + 1;
    StartsInRound(w);
    EnteringKeepsCapabilities(w);
    RoundAdvances(w, entering);
    LagIsUnsafe(Exec(w, Round(entering)));
    UnsafeAfter(w, Round(entering), Lag(entering) + Jump(entering + 2));
  }

  lemma LagIsUnsafe(a: World)
    requires AfterRound(a, TO_MAINTENANCE)
    requires a.config.capabilities == {V3_0} && Elements(a.specs[a.stage].capabilities) != {V3_0}
    ensures UnsafeAt(a, Lag(a.stage) + Jump(a.stage + 2))
  {
    LagHidesCapability(a);
    LagEndsUnsafe(Exec(a, Lag(a.stage)));
    UnsafeAfter(a, Lag(a.stage), Jump(a.stage + 2));
  }

  /** Updating at the end of `steps` is not safe. */
  predicate UnsafeAt(w: World, steps: seq<Step>) {
    !SafeStep(Exec(w, steps), Update)
  }

  lemma UnsafeAfter(w: World, before: seq<Step>, steps: seq<Step>)
    requires UnsafeAt(Exec(w, before), steps)
    ensures UnsafeAt(w, before + steps)
  {
    ExecAppend(w, before, steps);
  }

  /** Acting on the BFT spec changes the consensus type of a raft channel. */
  lemma ActsOnBft(w: World)
    requires StillMigratable(w) && |w.specs| == w.stage + 1 && w.specs[w.stage].ordererType == BFT
    requires w.operator == Idle && w.seen <= w.stage && w.config.orderer.consensus.Raft?
    ensures SafeStep(Apply(w, Fetch(w.stage)), Update) ==> InMaintenance(w.config) && w.config.capabilities == {V3_0}
  {
    Acts(w, w.stage);
    ReconciledFields(w.config, w.specs[w.stage]);
  }

  lemma EnteringKeepsCapabilities(w: World)
    requires AfterRound(w, 0)
    ensures var v := Exec(w, Round(w.stage + 1));
            && v.config.capabilities == w.config.capabilities
            && |v.specs| == w.stage + 2 && v.specs[w.stage + 1].capabilities == w.specs[w.stage].capabilities
  {
    ExecFive(w, Patch, Fetch(w.stage + 1), Update, Publish, Poll);
    Patches(w);
    EntersOnNewSpec(Apply(w, Patch));
  }

  lemma EntersOnNewSpec(a: World)
    requires StillMigratable(a) && SpecsOk(a) && a.stage == TO_MAINTENANCE && a.operator == Idle && a.seen <= a.stage
    requires !InMaintenance(a.config) && a.config.orderer.consensus.Raft?
    ensures var c := Apply(Apply(Apply(Apply(a, Fetch(a.stage)), Update), Publish), Poll);
            c.config.capabilities == a.config.capabilities && c.specs == a.specs
  {
    Acts(a, a.stage);
    ReconciledFields(a.config, a.specs[a.stage]);
  }

  /** Without timeouts, the migration is safe under every interleaving exactly when the capabilities are in step. */
  lemma SafeIffCapabilitiesInStep(w: World)
    requires Init(w) && Migratable(w)
    ensures CapabilitiesInStep(w) <==>
              forall steps: seq<Step>, s: Step :: NoTimeOut(steps) && !s.TimeOut? ==> SafeStep(Exec(w, steps), s)
  {
    if CapabilitiesInStep(w) {
      forall steps: seq<Step>, s: Step | NoTimeOut(steps) && !s.TimeOut? ensures SafeStep(Exec(w, steps), s) {
        ConsensusChangesSafely(w, steps, s);
      }
    } else {
      LaggingIsUnsafe(w);
      assert NoTimeOut(LaggingConfigMap(w.stage + 1));
    }
  }

  // ---------------------------------------------------------- silent time-outs

  predicate NoV3Yet(w: World)
    requires |w.specs| >= 1
  {
    w.config.capabilities != {V3_0} && Elements(w.specs[0].capabilities) != {V3_0}
  }

  /** What survives a state wait that times out: V3_0 can appear only under maintenance. */
  ghost predicate InvDespiteTimeOut(w: World) {
    && SpecsOk(w) && Elements(w.specs[0].capabilities) != {V3_0}
    && w.seen < |w.specs| && (w.operator.Active? ==> w.operator.spec == w.seen)
    && (w.config.capabilities == {V3_0} ==> w.seen >= TO_V3_0 && StaysInMaintenance(w))
    && (w.published.capabilities == {V3_0} || Passed(w, TO_V3_0) ==> w.config.capabilities == {V3_0})
    && (w.published.orderer.consensus.Bft? || Passed(w, TO_BFT) ==> w.config.orderer.consensus.Bft?)
  }

  lemma UpdatedDespiteTimeOut(w: World, v: World)
    requires InvDespiteTimeOut(w) && Updated(w, v)
    ensures InvDespiteTimeOut(v) && SafeChange(w.config, v.config)
  {
  }

  lemma FollowerDespiteTimeOut(w: World, f: FollowerSpec)
    requires InvDespiteTimeOut(w)
    ensures InvDespiteTimeOut(Apply(w, FollowerUpdate(f))) && SafeStep(w, FollowerUpdate(f))
  {
    var v := Apply(w, FollowerUpdate(f));
    assert v.config.orderer == w.config.orderer && v.config.capabilities == w.config.capabilities;
  }

  lemma PatchDespiteTimeOut(w: World)
    requires InvDespiteTimeOut(w)
    ensures InvDespiteTimeOut(Apply(w, Patch))
  {
    PatchKeepsSpecs(w);
  }

  lemma WaitDespiteTimeOut(w: World, s: Step)
    requires InvDespiteTimeOut(w) && (s.Poll? || s.TimeOut?)
    ensures InvDespiteTimeOut(Apply(w, s))
  {
  }

  lemma OperatorDespiteTimeOut(w: World, s: Step)
    requires InvDespiteTimeOut(w) && (s.Fetch? || s.Abort? || s.Publish?)
    ensures InvDespiteTimeOut(Apply(w, s)) && SafeStep(w, s)
  {
  }

  lemma StepDespiteTimeOut(w: World, s: Step)
    requires InvDespiteTimeOut(w)
    ensures InvDespiteTimeOut(Apply(w, s)) && SafeStep(w, s)
  {
    match s
    case Update =>
      UpdateStep(w);
      UpdatedDespiteTimeOut(w, Apply(w, s));
    case FollowerUpdate(f) => FollowerDespiteTimeOut(w, f);
    case Patch => PatchDespiteTimeOut(w);
    case Poll => WaitDespiteTimeOut(w, s);
    case TimeOut => WaitDespiteTimeOut(w, s);
    case _ => OperatorDespiteTimeOut(w, s);
  }

  lemma {:induction false} RunDespiteTimeOut(w: World, steps: seq<Step>)
    requires InvDespiteTimeOut(w)
    ensures InvDespiteTimeOut(Exec(w, steps))
    decreases |steps|
  {
    if |steps| > 0 {
      StepDespiteTimeOut(w, steps[0]);
      RunDespiteTimeOut(Apply(w, steps[0]), steps[1..]);
    }
  }

  /** The script runs through its stages on V3_0 alone while the operator has not reacted to any of them. */
  function SilentTimeOut(last: nat): seq<Step> {
    [Patch, TimeOut, Patch, Poll, Patch] + [Fetch(last)]
  }

  lemma SilentTimeOutIsUnsafe(w: World)
    requires ReadyForV3(w) && w.operator == Idle && w.published == w.config
    ensures UnsafeAt(w, SilentTimeOut(w.stage + 3))
  {
    var last := w.stage + 3;
    ExecFive(w, Patch, TimeOut, Patch, Poll, Patch);
    Patches(w);
    var a := Apply(Apply(w, Patch), TimeOut);
    assert a == Apply(w, Patch).(waiting := false);
    Patches(a);
    var b := Apply(Apply(a, Patch), Poll);
    assert b == Apply(a, Patch).(waiting := false);
    Patches(b);
    var c := Apply(b, Patch);
    ExecAppend(w, [Patch, TimeOut, Patch, Poll, Patch], [Fetch(last)]);
    assert [Fetch(last)] == [Fetch(last)] + [];
    ExecCons(c, Fetch(last), []);
    ActsOnBft(c);
  }

  /** One reconcile of the spec as it was, published. */
  function CatchUp(k: nat): seq<Step> {
    [Fetch(k), Update, Publish]
  }

  lemma CatchUpPublishesCapabilities(w: World)
    requires Init(w) && Migratable(w) && Elements(w.specs[0].capabilities) == {V3_0}
    ensures var v := Exec(w, CatchUp(w.stage));
            ReadyForV3(v) && v.operator == Idle && v.published == v.config && v.stage == w.stage
  {
    CatchUpReconciles(w);
    ExecThree(w, Fetch(w.stage), Update, Publish);
    CatchUpShows(Apply(Apply(w, Fetch(w.stage)), Update));
  }

  /** In step on V3_0 before the first patch; the operator may have just saved. */
  ghost predicate ReadyForV3(a: World) {
    && StillMigratable(a) && SpecsOk(a) && a.stage == 0 && a.seen == 0 && !a.waiting && !a.failed
    && a.config.capabilities == {V3_0} && a.config.orderer.state == Normal && a.config.orderer.consensus.Raft?
  }

  lemma CatchUpShows(a: World)
    requires ReadyForV3(a) && a.operator == Saving
    ensures var v := Apply(a, Publish); ReadyForV3(v) && v.operator == Idle && v.published == v.config
  {
  }

  lemma ExecThree(w: World, a: Step, b: Step, c: Step)
    ensures Exec(w, [a, b, c]) == Apply(Apply(Apply(w, a), b), c)
  {
    assert [a, b, c] == [a] + [b, c];
    ExecCons(w, a, [b, c]);
    ExecTwo(Apply(w, a), b, c);
  }

  lemma CatchUpReconciles(w: World)
    requires Init(w) && Migratable(w) && Elements(w.specs[0].capabilities) == {V3_0}
    ensures var v := Apply(Apply(w, Fetch(w.stage)), Update); ReadyForV3(v) && v.operator == Saving
  {
    Acts(w, w.stage);
    ReconciledFields(w.config, w.specs[w.stage]);
  }

  lemma SafeWithoutV3(w: World, steps: seq<Step>, s: Step)
    requires Init(w) && Migratable(w) && NoV3Yet(w)
    ensures SafeStep(Exec(w, steps), s)
  {
    StartsInRound(w);
    RunDespiteTimeOut(w, steps);
    StepDespiteTimeOut(Exec(w, steps), s);
  }

  lemma UnsafeOnceCaughtUp(w: World)
    requires Init(w) && Migratable(w) && Elements(w.specs[0].capabilities) == {V3_0}
    ensures UnsafeAt(w, CatchUp(w.stage) + SilentTimeOut(w.stage + 3))
  {
    CatchUpPublishesCapabilities(w);
    UnsafeFrom(w, CatchUp(w.stage), Exec(w, CatchUp(w.stage)));
  }

  lemma UnsafeFrom(w: World, before: seq<Step>, v: World)
    requires v == Exec(w, before) && v.stage == w.stage
    requires ReadyForV3(v) && v.operator == Idle && v.published == v.config
    ensures UnsafeAt(w, before + SilentTimeOut(w.stage + 3))
  {
    SilentTimeOutIsUnsafe(v);
    UnsafeAfter(w, before, SilentTimeOut(w.stage + 3));
  }

  lemma UnsafeWithV3(w: World) returns (steps: seq<Step>)
    requires Init(w) && Migratable(w) && !NoV3Yet(w)
    ensures UnsafeAt(w, steps)
  {
    if w.config.capabilities == {V3_0} {
      StartsInRound(w);
      SilentTimeOutIsUnsafe(w);
      steps := SilentTimeOut(w.stage + 3);
    } else {
      UnsafeOnceCaughtUp(w);
      steps := CatchUp(w.stage) + SilentTimeOut(w.stage + 3);
    }
  }

  /**
   * With state waits free to time out, the migration is safe under every interleaving exactly when neither the
   * channel nor the spec has V3_0 at the start: only then does the capability wait stand in for the state wait.
   */
  lemma SafeDespiteTimeOutIffNoV3Yet(w: World)
    requires Init(w) && Migratable(w)
    ensures (forall steps: seq<Step>, s: Step :: SafeStep(Exec(w, steps), s)) <==> NoV3Yet(w)
  {
    if NoV3Yet(w) {
      forall steps: seq<Step>, s: Step ensures SafeStep(Exec(w, steps), s) {
        SafeWithoutV3(w, steps, s);
      }
    } else {
      var steps := UnsafeWithV3(w);
      assert !SafeStep(Exec(w, steps), Update);
    }
  }

  // ------------------------------------------------------------ the new mapping

  datatype Answer = Answer(identity: string, mspId: string)

  datatype MappingError = NoIdentity | NoMspId

  /** The script's consenter mapping: one entry per orderer of the spec, numbered from one; missing answers throw. */
  method BuildConsenterMapping(orderers: seq<SpecConsenter>, answers: seq<Answer>)
    returns (r: Result<seq<BftConsenter>, MappingError>)
    requires |answers| == |orderers|
    ensures r.Ok? <==> forall a :: a in answers ==> a.identity != "" && a.mspId != ""
    ensures r.Ok? ==>
              && |r.value| == |orderers|
              && forall k :: 0 <= k < |orderers| ==>
                   r.value[k] == BftConsenter(k + 1, orderers[k].host, orderers[k].port,
                                              answers[k].mspId, answers[k].identity,
                                              orderers[k].tlsCert, orderers[k].tlsCert)
    ensures r.Ok? ==> forall j, k :: 0 <= j < k < |r.value| ==> r.value[j].id != r.value[k].id
  {
    var consenterMapping: seq<BftConsenter> := [];
    var idx := 1;
    for i := 0 to |orderers|
      invariant idx == i + 1 && |consenterMapping| == i
      invariant forall a :: a in answers[..i] ==> a.identity != "" && a.mspId != ""
      invariant forall k :: 0 <= k < i ==>
                  consenterMapping[k] == BftConsenter(k + 1, orderers[k].host, orderers[k].port,
                                                      answers[k].mspId, answers[k].identity,
                                                      orderers[k].tlsCert, orderers[k].tlsCert)
    {
      if answers[i].identity == "" {
        assert answers[i] in answers;
        return Err(NoIdentity);
      }
      if answers[i].mspId == "" {
        assert answers[i] in answers;
        return Err(NoMspId);
      }
      assert answers[..i + 1] == answers[..i] + [answers[i]];
      consenterMapping := consenterMapping + [BftConsenter(
        idx, orderers[i].host, orderers[i].port, answers[i].mspId, answers[i].identity,
        orderers[i].tlsCert, orderers[i].tlsCert)];
      idx := idx + 1;
    }
    assert answers[..|answers|] == answers;
    return Ok(consenterMapping);
  }
}
