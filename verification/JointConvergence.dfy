/**
 * One main spec and one follower spec for each of some organizations, all fixed. However their reconciles
 * interleave, at most two updates of the main spec and one of each follower are accepted; and once each of them
 * has had enough turns, nobody has anything to change any more.
 */
module JointConvergence {
  import opened Wrappers
  import opened ChannelConfig
  import opened ChannelUpdate
  import opened Convergence
  import opened Follower
  import opened Interference

  datatype Team = Team(main: Wanted, followers: seq<FollowerSpec>)

  predicate Member(t: Team, author: Author) {
    match author
    case ByMain(w) => w == t.main
    case ByFollower(f) => f in t.followers
  }

  ghost predicate OnePerOrganization(followers: seq<FollowerSpec>) {
    forall i, j :: 0 <= i < j < |followers| ==> followers[i].mspId != followers[j].mspId
  }

  // ------------------------------------------- what the main reconciler looks at

  /** Equal but for the records of the application organizations. */
  predicate SameShape(c: Channel, d: Channel) {
    && d == c.(application := c.application.(orgs := d.application.orgs))
    && d.application.orgs.Keys == c.application.orgs.Keys
  }

  /** The main reconciler treats equal shapes alike. */
  lemma ShapeDecides(c: Channel, d: Channel, w: Wanted)
    requires SameShape(c, d)
    ensures SameShape(Submitted(c, w), Submitted(d, w))
  {
  }

  /** It has nothing to change exactly when it would keep the shape. */
  lemma KeepingShapeIsSteady(c: Channel, w: Wanted)
    ensures Submitted(c, w) == c <==> SameShape(Submitted(c, w), c)
  {
    var d := Submitted(c, w);
    if SameShape(d, c) {
      assert d.application.orgs == c.application.orgs;
    }
  }

  /** How many updates the main reconciler would still submit if left alone. */
  function MainLeft(c: Channel, w: Wanted): (n: nat)
    ensures n <= 2
  {
    if Submitted(c, w) == c then 0
    else if Submitted(Submitted(c, w), w) == Submitted(c, w) then 1
    else 2
  }

  lemma MainLeftByShape(c: Channel, d: Channel, w: Wanted)
    requires SameShape(c, d)
    ensures MainLeft(c, w) == MainLeft(d, w)
  {
    ShapeDecides(c, d, w);
    ShapeDecides(Submitted(c, w), Submitted(d, w), w);
    SteadyByShape(c, d, w);
    SteadyByShape(Submitted(c, w), Submitted(d, w), w);
  }

  lemma SteadyByShape(c: Channel, d: Channel, w: Wanted)
    requires SameShape(c, d)
    ensures Submitted(c, w) == c <==> Submitted(d, w) == d
  {
    ShapeDecides(c, d, w);
    KeepingShapeIsSteady(c, w);
    KeepingShapeIsSteady(d, w);
  }

  lemma MainStepLowers(c: Channel, w: Wanted)
    requires AddressesUnique(w) && Submitted(c, w) != c
    ensures MainLeft(Submitted(c, w), w) < MainLeft(c, w)
  {
    ThirdSubmitsNothing(c, w);
    ThirdSubmitsNothing(Submitted(c, w), w);
  }

  // --------------------------------------------------- what the followers look at

  /** The organization's record is not, or not yet, as its follower wants it. */
  predicate Pending(c: Channel, main: Wanted, f: FollowerSpec) {
    if f.mspId in c.application.orgs then
      !Parsed(f.revocations)
      || c.application.orgs[f.mspId].anchors != AddAnchors([], f.anchors)
      || c.application.orgs[f.mspId].msp.revocations != Texts(f.revocations)
    else f.mspId in Names(main.application.orgs)
  }

  function FollowersLeft(c: Channel, main: Wanted, followers: seq<FollowerSpec>): (n: nat)
    ensures n <= |followers|
  {
    if |followers| == 0 then 0
    else FollowersLeft(c, main, followers[1..]) + (if Pending(c, main, followers[0]) then 1 else 0)
  }

  lemma {:induction false} NoneNewlyPending(c: Channel, d: Channel, main: Wanted, followers: seq<FollowerSpec>)
    requires forall f :: f in followers && Pending(d, main, f) ==> Pending(c, main, f)
    ensures FollowersLeft(d, main, followers) <= FollowersLeft(c, main, followers)
  {
    if |followers| > 0 {
      assert followers[0] in followers;
      NoneNewlyPending(c, d, main, followers[1..]);
    }
  }

  lemma {:induction false} OneNoLongerPending(c: Channel, d: Channel, main: Wanted, followers: seq<FollowerSpec>,
                                              f: FollowerSpec)
    requires f in followers && Pending(c, main, f) && !Pending(d, main, f)
    requires forall g :: g in followers && Pending(d, main, g) ==> Pending(c, main, g)
    ensures FollowersLeft(d, main, followers) < FollowersLeft(c, main, followers)
  {
    if followers[0] == f {
      NoneNewlyPending(c, d, main, followers[1..]);
    } else {
      assert followers[0] in followers;
      OneNoLongerPending(c, d, main, followers[1..], f);
    }
  }

  lemma MainLeavesPending(c: Channel, main: Wanted, f: FollowerSpec)
    requires Pending(Submitted(c, main), main, f)
    ensures Pending(c, main, f)
  {
  }

  lemma NotPendingChangesNothing(c: Channel, main: Wanted, f: FollowerSpec)
    requires FollowerAfter(c, f).Some? && !Pending(c, main, f)
    ensures FollowerAfter(c, f).value == c
  {
    var orgs := c.application.orgs;
    assert orgs[f.mspId := orgs[f.mspId]] == orgs;
  }

  lemma FollowerSettlesOwn(c: Channel, main: Wanted, f: FollowerSpec)
    requires FollowerAfter(c, f).Some? && FollowerAfter(c, f).value != c
    ensures Pending(c, main, f) && !Pending(FollowerAfter(c, f).value, main, f)
    ensures SameShape(c, FollowerAfter(c, f).value)
  {
    if !Pending(c, main, f) { NotPendingChangesNothing(c, main, f); }
  }

  lemma FollowerLeavesOthers(c: Channel, main: Wanted, f: FollowerSpec, g: FollowerSpec)
    requires FollowerAfter(c, f).Some? && g.mspId != f.mspId
    ensures Pending(FollowerAfter(c, f).value, main, g) == Pending(c, main, g)
  {
  }

  // ------------------------------------------------------------- the joint bound

  /** An upper bound on the updates still to be accepted. */
  function Left(c: Channel, t: Team): (n: nat)
    ensures n <= 2 + |t.followers|
  {
    MainLeft(c, t.main) + FollowersLeft(c, t.main, t.followers)
  }

  /** Every update that changes something uses up some of the bound. */
  lemma UpdateLowersLeft(c: Channel, t: Team, author: Author)
    requires AddressesUnique(t.main) && OnePerOrganization(t.followers) && Member(t, author)
    requires Computed(c, author).Some? && Computed(c, author).value != c
    ensures Left(Computed(c, author).value, t) < Left(c, t)
  {
    var d := Computed(c, author).value;
    match author
    case ByMain(w) =>
      assert d == Submitted(c, w);
      MainStepLowers(c, w);
      forall f | f in t.followers && Pending(d, w, f) ensures Pending(c, w, f) {
        MainLeavesPending(c, w, f);
      }
      NoneNewlyPending(c, d, w, t.followers);
    case ByFollower(f) =>
      FollowerSettlesOwn(c, t.main, f);
      MainLeftByShape(c, d, t.main);
      forall g | g in t.followers && Pending(d, t.main, g) ensures Pending(c, t.main, g) {
        if g.mspId != f.mspId { FollowerLeavesOthers(c, t.main, f, g); }
      }
      OneNoLongerPending(c, d, t.main, t.followers, f);
  }

  /** How many submissions of the run are accepted. */
  function Acceptances(w: World, steps: seq<Step>): nat {
    if |steps| == 0 then 0
    else
      var front := steps[..|steps| - 1];
      var s := steps[|steps| - 1];
      Acceptances(w, front) + (if s.Submit? && Accepted(Exec(w, front), s.id) then 1 else 0)
  }

  /** Only the team is at work: its drafts are in flight and its members read. */
  ghost predicate OnlyTeam(w: World, t: Team) {
    DraftsFaithful(w) && forall id :: id in w.drafts ==> Member(t, w.drafts[id].author)
  }

  ghost predicate TeamReads(steps: seq<Step>, t: Team) {
    forall s :: s in steps && s.Read? ==> Member(t, s.author)
  }

  lemma {:induction false} RunKeepsTeam(w: World, steps: seq<Step>, t: Team)
    requires OnlyTeam(w, t) && TeamReads(steps, t)
    ensures OnlyTeam(Exec(w, steps), t)
  {
    RunKeepsFaithful(w, steps);
    if |steps| > 0 {
      RunKeepsTeam(w, steps[..|steps| - 1], t);
      assert steps[|steps| - 1] in steps;
    }
  }

  lemma StepLowersLeft(w: World, s: Step, t: Team)
    requires AddressesUnique(t.main) && OnePerOrganization(t.followers) && OnlyTeam(w, t)
    ensures Left(Apply(w, s).config, t) + (if s.Submit? && Accepted(w, s.id) then 1 else 0) <= Left(w.config, t)
  {
    if s.Submit? && Accepted(w, s.id) {
      UpdateLowersLeft(w.config, t, w.drafts[s.id].author);
    }
  }

  lemma {:induction false} AcceptancesLowerLeft(w: World, steps: seq<Step>, t: Team)
    requires AddressesUnique(t.main) && OnePerOrganization(t.followers)
    requires OnlyTeam(w, t) && TeamReads(steps, t)
    ensures Acceptances(w, steps) + Left(Exec(w, steps).config, t) <= Left(w.config, t)
  {
    if |steps| > 0 {
      var front := steps[..|steps| - 1];
      AcceptancesLowerLeft(w, front, t);
      RunKeepsTeam(w, front, t);
      StepLowersLeft(Exec(w, front), steps[|steps| - 1], t);
    }
  }

  // ------------------------------------------------------- the bound by author

  /** Submitting draft `id` now is accepted, and the draft is this author's. */
  predicate AcceptedFrom(w: World, s: Step, author: Author) {
    s.Submit? && Accepted(w, s.id) && w.drafts[s.id].author == author
  }

  /** How many submissions of one author are accepted. */
  function AcceptancesBy(w: World, steps: seq<Step>, author: Author): nat {
    if |steps| == 0 then 0
    else
      var front := steps[..|steps| - 1];
      AcceptancesBy(w, front, author)
      + (if AcceptedFrom(Exec(w, front), steps[|steps| - 1], author) then 1 else 0)
  }

  /** What an author may still submit: up to two updates, or one. */
  function Share(c: Channel, t: Team, author: Author): (n: nat)
    ensures n <= if author.ByMain? then 2 else 1
  {
    match author
    case ByMain(_) => MainLeft(c, t.main)
    case ByFollower(f) => if Pending(c, t.main, f) then 1 else 0
  }

  lemma MemberOf(t: Team, f: FollowerSpec, g: FollowerSpec)
    requires OnePerOrganization(t.followers) && f in t.followers && g in t.followers && f != g
    ensures f.mspId != g.mspId
  {
    var i :| 0 <= i < |t.followers| && t.followers[i] == f;
    var j :| 0 <= j < |t.followers| && t.followers[j] == g;
  }

  /** An author's change uses up some of its own share and adds to nobody's. */
  lemma ChangeLowersShare(c: Channel, t: Team, maker: Author, author: Author)
    requires AddressesUnique(t.main) && OnePerOrganization(t.followers) && Member(t, maker) && Member(t, author)
    requires Computed(c, maker).Some? && Computed(c, maker).value != c
    ensures Share(Computed(c, maker).value, t, author) + (if maker == author then 1 else 0) <= Share(c, t, author)
  {
    var d := Computed(c, maker).value;
    match maker
    case ByMain(w) =>
      assert d == Submitted(c, w);
      MainStepLowers(c, w);
      if author.ByFollower? && Pending(d, w, author.spec) { MainLeavesPending(c, w, author.spec); }
    case ByFollower(f) =>
      FollowerSettlesOwn(c, t.main, f);
      MainLeftByShape(c, d, t.main);
      if author.ByFollower? && author.spec != f {
        MemberOf(t, author.spec, f);
        FollowerLeavesOthers(c, t.main, f, author.spec);
      }
  }

  lemma StepLowersShare(w: World, s: Step, t: Team, author: Author)
    requires AddressesUnique(t.main) && OnePerOrganization(t.followers) && OnlyTeam(w, t) && Member(t, author)
    ensures Share(Apply(w, s).config, t, author) + (if AcceptedFrom(w, s, author) then 1 else 0)
            <= Share(w.config, t, author)
  {
    if s.Submit? && Accepted(w, s.id) {
      ChangeLowersShare(w.config, t, w.drafts[s.id].author, author);
    }
  }

  lemma {:induction false} AcceptancesLowerShare(w: World, steps: seq<Step>, t: Team, author: Author)
    requires AddressesUnique(t.main) && OnePerOrganization(t.followers) && Member(t, author)
    requires OnlyTeam(w, t) && TeamReads(steps, t)
    ensures AcceptancesBy(w, steps, author) + Share(Exec(w, steps).config, t, author) <= Share(w.config, t, author)
  {
    if |steps| > 0 {
      var front := steps[..|steps| - 1];
      AcceptancesLowerShare(w, front, t, author);
      RunKeepsTeam(w, front, t);
      StepLowersShare(Exec(w, front), steps[|steps| - 1], t, author);
    }
  }

  /** In any run, of any length and order: at most two main updates, one of each follower, and so many in all. */
  lemma AcceptancesBounded(w: World, steps: seq<Step>, t: Team)
    requires AddressesUnique(t.main) && OnePerOrganization(t.followers)
    requires OnlyTeam(w, t) && TeamReads(steps, t)
    ensures AcceptancesBy(w, steps, ByMain(t.main)) <= 2
    ensures forall f :: f in t.followers ==> AcceptancesBy(w, steps, ByFollower(f)) <= 1
    ensures Acceptances(w, steps) <= 2 + |t.followers|
  {
    AcceptancesLowerLeft(w, steps, t);
    AcceptancesLowerShare(w, steps, t, ByMain(t.main));
    forall f | f in t.followers ensures AcceptancesBy(w, steps, ByFollower(f)) <= 1 {
      AcceptancesLowerShare(w, steps, t, ByFollower(f));
    }
  }

  // --------------------------------------------------------------- the fixpoint

  /** Nobody has anything to change. */
  ghost predicate JointFixpoint(c: Channel, t: Team) {
    forall author :: Member(t, author) ==> Computed(c, author).None? || Computed(c, author).value == c
  }

  function Turn(author: Author): seq<Step> {
    [Read(0, author), Submit(0)]
  }

  /** An author that has something to change and takes an undisturbed turn is accepted. */
  lemma TurnChanges(w: World, author: Author)
    requires Computed(w.config, author).Some? && Computed(w.config, author).value != w.config
    ensures Exec(w, Turn(author)).config == Computed(w.config, author).value
  {
    var steps := Turn(author);
    assert steps[..1] == [Read(0, author)] && [Read(0, author)][..0] == [];
    assert Exec(w, []) == w;
    assert Exec(w, [Read(0, author)]) == Apply(w, Read(0, author));
    assert Accepted(Apply(w, Read(0, author)), 0);
  }

  /** A fixpoint can be reached from anywhere, in no more turns than the bound. */
  lemma {:induction false} FixpointInReach(w: World, t: Team) returns (steps: seq<Step>)
    requires AddressesUnique(t.main) && OnePerOrganization(t.followers)
    ensures TeamReads(steps, t) && |steps| <= 2 * Left(w.config, t)
    ensures JointFixpoint(Exec(w, steps).config, t)
    decreases Left(w.config, t)
  {
    if author :| Member(t, author) && Computed(w.config, author).Some? && Computed(w.config, author).value != w.config {
      TurnChanges(w, author);
      UpdateLowersLeft(w.config, t, author);
      var rest := FixpointInReach(Exec(w, Turn(author)), t);
      steps := Turn(author) + rest;
      ExecAppend(w, Turn(author), rest);
    } else {
      steps := [];
    }
  }

  /** Once there, the configuration stays, whatever is still in flight. */
  lemma {:induction false} FixpointStays(w: World, steps: seq<Step>, t: Team)
    requires OnlyTeam(w, t) && TeamReads(steps, t) && JointFixpoint(w.config, t)
    ensures Exec(w, steps).config == w.config
  {
    if |steps| > 0 {
      var front := steps[..|steps| - 1];
      var s := steps[|steps| - 1];
      FixpointStays(w, front, t);
      RunKeepsTeam(w, front, t);
      var v := Exec(w, front);
      if s.Submit? && s.id in v.drafts {
        assert Member(t, v.drafts[s.id].author);
      }
    }
  }

  // ------------------------------------------------------------- every fair run

  /** The author reads, and later submits the very draft it then made, with any other steps around and between. */
  ghost predicate TakesTurn(steps: seq<Step>, author: Author) {
    exists i: nat, j: nat :: i < j < |steps| && IsTurn(steps, i, j, author)
  }

  ghost predicate IsTurn(steps: seq<Step>, i: nat, j: nat, author: Author)
    requires i < j < |steps|
  {
    && steps[i].Read? && steps[i].author == author && steps[j] == Submit(steps[i].id)
    && forall k :: i < k < j ==> steps[k].id != steps[i].id
  }

  /** A stretch of a run in which every member takes a turn. */
  ghost predicate Round(steps: seq<Step>, t: Team) {
    TeamReads(steps, t) && forall author :: Member(t, author) ==> TakesTurn(steps, author)
  }

  lemma NothingAcceptedNothingChanged(w: World, steps: seq<Step>, k: nat)
    requires k <= |steps| && Acceptances(w, steps) == 0
    ensures Acceptances(w, steps[..k]) == 0
    ensures Exec(w, steps[..k]).config == w.config && Exec(w, steps[..k]).version == w.version
    ensures k < |steps| && steps[k].Submit? ==> !Accepted(Exec(w, steps[..k]), steps[k].id)
  {
    AcceptancesBefore(w, steps, k);
    if k < |steps| {
      AcceptancesBefore(w, steps, k + 1);
      assert steps[..k + 1][..k] == steps[..k];
    }
    UnacceptedKeepsConfig(w, steps[..k]);
  }

  lemma {:induction false} AcceptancesBefore(w: World, steps: seq<Step>, k: nat)
    requires k <= |steps|
    ensures Acceptances(w, steps[..k]) <= Acceptances(w, steps)
  {
    if k == |steps| {
      assert steps[..k] == steps;
    } else {
      assert steps[..|steps| - 1][..k] == steps[..k];
      AcceptancesBefore(w, steps[..|steps| - 1], k);
    }
  }

  lemma {:induction false} UnacceptedKeepsConfig(w: World, steps: seq<Step>)
    requires Acceptances(w, steps) == 0
    ensures Exec(w, steps).config == w.config && Exec(w, steps).version == w.version
  {
    if |steps| > 0 {
      UnacceptedKeepsConfig(w, steps[..|steps| - 1]);
    }
  }

  ghost predicate Lies(w: World, id: nat, draft: Draft) {
    id in w.drafts && w.drafts[id] == draft
  }

  lemma OthersLeaveDraft(w: World, s: Step, id: nat, draft: Draft)
    requires Lies(w, id, draft) && s.id != id
    ensures Lies(Apply(w, s), id, draft)
  {
  }

  lemma ExecNext(w: World, steps: seq<Step>, k: nat)
    requires k < |steps|
    ensures Exec(w, steps[..k + 1]) == Apply(Exec(w, steps[..k]), steps[k])
  {
    assert steps[..k + 1][..k] == steps[..k];
  }

  /** Until it is touched again, a draft lies as it was made. */
  lemma {:induction false} DraftLies(w: World, steps: seq<Step>, i: nat, k: nat)
    requires i < k <= |steps| && Acceptances(w, steps) == 0 && steps[i].Read?
    requires forall m :: i < m < k ==> steps[m].id != steps[i].id
    requires Computed(w.config, steps[i].author).Some?
    ensures Lies(Exec(w, steps[..k]), steps[i].id,
                 Draft(w.version, Computed(w.config, steps[i].author).value, steps[i].author))
  {
    ExecNext(w, steps, k - 1);
    if k - 1 == i {
      NothingAcceptedNothingChanged(w, steps, i);
    } else {
      DraftLies(w, steps, i, k - 1);
      OthersLeaveDraft(Exec(w, steps[..k - 1]), steps[k - 1], steps[i].id,
                       Draft(w.version, Computed(w.config, steps[i].author).value, steps[i].author));
    }
  }

  /** An author whose turn changes nothing has nothing to change. */
  lemma IdleTurn(w: World, steps: seq<Step>, author: Author)
    requires Acceptances(w, steps) == 0 && TakesTurn(steps, author)
    ensures Computed(w.config, author).None? || Computed(w.config, author).value == w.config
  {
    var i: nat, j: nat :| i < j < |steps| && IsTurn(steps, i, j, author);
    if Computed(w.config, author).Some? {
      DraftLies(w, steps, i, j);
      NothingAcceptedNothingChanged(w, steps, j);
    }
  }

  /** A round in which nothing is accepted, wherever in a run, shows a joint fixpoint. */
  lemma IdleRoundIsFixpoint(w: World, round: seq<Step>, t: Team)
    requires Round(round, t) && Acceptances(w, round) == 0
    ensures JointFixpoint(w.config, t) && Exec(w, round).config == w.config
  {
    UnacceptedKeepsConfig(w, round);
    forall author | Member(t, author)
      ensures Computed(w.config, author).None? || Computed(w.config, author).value == w.config
    {
      IdleTurn(w, round, author);
    }
  }

  function Joined(rounds: seq<seq<Step>>): seq<Step> {
    if |rounds| == 0 then [] else rounds[0] + Joined(rounds[1..])
  }

  lemma {:induction false} JoinedReads(rounds: seq<seq<Step>>, t: Team)
    requires forall r :: r in rounds ==> Round(r, t)
    ensures TeamReads(Joined(rounds), t)
  {
    if |rounds| > 0 {
      assert rounds[0] in rounds && Round(rounds[0], t);
      JoinedReads(rounds[1..], t);
    }
  }

  /** More rounds than there are updates left arrive, whatever the order inside them and whatever is in flight. */
  lemma {:induction false} RoundsArrive(w: World, rounds: seq<seq<Step>>, t: Team)
    requires AddressesUnique(t.main) && OnePerOrganization(t.followers) && OnlyTeam(w, t)
    requires |rounds| > Left(w.config, t) && forall r :: r in rounds ==> Round(r, t)
    ensures JointFixpoint(Exec(w, Joined(rounds)).config, t)
    decreases |rounds|
  {
    var round, rest := rounds[0], rounds[1..];
    assert round in rounds && Round(round, t);
    RunKeepsTeam(w, round, t);
    AcceptancesLowerLeft(w, round, t);
    ExecAppend(w, round, Joined(rest));
    if Acceptances(w, round) == 0 {
      IdleRoundIsFixpoint(w, round, t);
      JoinedReads(rest, t);
      FixpointStays(Exec(w, round), Joined(rest), t);
    } else {
      RoundsArrive(Exec(w, round), rest, t);
    }
  }

  /** In every run, three rounds and one more for each follower are enough; from then on the configuration stays. */
  lemma EveryFairRunConverges(w: World, rounds: seq<seq<Step>>, later: seq<Step>, t: Team)
    requires AddressesUnique(t.main) && OnePerOrganization(t.followers) && OnlyTeam(w, t)
    requires |rounds| >= 3 + |t.followers| && (forall r :: r in rounds ==> Round(r, t)) && TeamReads(later, t)
    ensures var c := Exec(w, Joined(rounds)).config; JointFixpoint(c, t) && Exec(w, Joined(rounds) + later).config == c
  {
    RoundsArrive(w, rounds, t);
    JoinedReads(rounds, t);
    RunKeepsTeam(w, Joined(rounds), t);
    FixpointStays(Exec(w, Joined(rounds)), later, t);
    ExecAppend(w, Joined(rounds), later);
  }
}
