/**
 * Certificate renewal of a peer or orderer node: when a reconcile decides to renew, how it first takes the lease
 * that the resources of its kind share in its namespace, and what it records so that one request renews once.
 */
module CertRenewal {
  import opened Wrappers
  import opened LeaseProtocol
  import opened LeaseClient
  import PeerCrypto

  const FIVE_MINUTES: int := 300 * SECOND
  const LEASE_TTL: int := 120

  datatype Deployment = Running | Pending | Failed | UpdatingCertificates | Unknown

  /** The part of the resource's status the renewal logic reads and writes. */
  datatype Status = Status(deployment: Deployment, last: Option<int>, leaseHeld: bool)

  datatype Policy = Policy(autoRenew: bool, delta: int)

  /** How the calls of one reconcile went; `observed` is absent when the state could not be read. */
  datatype Outcome = Outcome(upgraded: bool, observed: Option<Deployment>, written: bool)

  datatype Visit = Visit(now: int, done: int, request: Option<int>, certExpiry: int, acquired: bool, outcome: Outcome)

  /** A `metav1.Time` loses its fraction of a second when the status is stored. */
  function Seconds(t: int): (r: int)
    ensures r <= t < r + SECOND
    ensures r % SECOND == 0
  {
    t - t % SECOND
  }

  predicate NeedsRenewal(p: Policy, request: Option<int>, last: Option<int>, certExpiry: int, now: int) {
    || (last.Some? && request.Some? && request.value > last.value)
    || (last.None? && request.Some?)
    || (p.autoRenew && certExpiry < now + p.delta)
  }

  predicate Due(p: Policy, st: Status, v: Visit) {
    NeedsRenewal(p, v.request, st.last, v.certExpiry, v.now)
  }

  predicate Renews(p: Policy, st: Status, v: Visit) {
    Due(p, st, v) && v.acquired && v.outcome.upgraded
  }

  predicate Recorded(v: Visit) {
    v.outcome.observed.Some? && v.outcome.written
  }

  function Freed(st: Status): Status {
    if st.leaseHeld && st.deployment == Running then st.(leaseHeld := false) else st
  }

  /** The status one reconcile leaves behind. */
  function After(p: Policy, st: Status, v: Visit): Status {
    var freed := Freed(st);
    if Due(p, st, v) && !v.acquired then freed
    else
      var held := if Due(p, st, v) then freed.(leaseHeld := true) else freed;
      if !v.outcome.upgraded || !Recorded(v) then held.(deployment := Failed)
      else
        held.(deployment := v.outcome.observed.value,
              last := if Due(p, st, v) then Some(Seconds(v.done + FIVE_MINUTES)) else st.last)
  }

  function Run(p: Policy, st: Status, visits: seq<Visit>): Status {
    if |visits| == 0 then st else After(p, Run(p, st, visits[..|visits| - 1]), visits[|visits| - 1])
  }

  /** The finishing times of the renewals of a run, in order. */
  function Renewals(p: Policy, st: Status, visits: seq<Visit>): seq<int> {
    if |visits| == 0 then []
    else
      var front := visits[..|visits| - 1];
      var v := visits[|visits| - 1];
      Renewals(p, st, front) + (if Renews(p, Run(p, st, front), v) then [v.done] else [])
  }

  ghost predicate Serial(visits: seq<Visit>) {
    && (forall v :: v in visits ==> v.now <= v.done)
    && (forall i, j :: 0 <= i < j < |visits| ==> visits[i].done <= visits[j].now)
  }

  // ----------------------------------------------------------------- debounce

  /** After a recorded renewal the same request is due again exactly when it lies past the recorded second. */
  lemma RenewedRequestDueAgain(p: Policy, st: Status, v: Visit, next: Visit)
    requires !p.autoRenew && v.request.Some? && next.request == v.request
    requires Renews(p, st, v) && Recorded(v)
    ensures Due(p, After(p, st, v), next) <==> v.request.value > Seconds(v.done + FIVE_MINUTES)
  {
  }

  lemma WholeSecondsFit(t: int, limit: int)
    requires t % SECOND == 0
    ensures t <= limit <==> t <= Seconds(limit)
  {
  }

  /** A fixed request at most five minutes ahead of every renewal; a renewal that succeeds is recorded. */
  ghost predicate OneRequest(visits: seq<Visit>, u: int) {
    && (forall v :: v in visits ==> v.request == Some(u) && u <= v.done + FIVE_MINUTES)
    && (forall v :: v in visits && v.outcome.upgraded ==> Recorded(v))
  }

  ghost predicate CanRenew(visits: seq<Visit>) {
    exists v :: v in visits && v.acquired && v.outcome.upgraded
  }

  /** Such a request for a whole second causes exactly one renewal in any run, or none if not due or never able. */
  lemma {:induction false} RequestRenewsOnce(p: Policy, st: Status, visits: seq<Visit>, u: int)
    requires !p.autoRenew && OneRequest(visits, u) && u % SECOND == 0
    ensures var due := st.last.None? || u > st.last.value;
            && |Renewals(p, st, visits)| == (if due && CanRenew(visits) then 1 else 0)
            && var last := Run(p, st, visits).last;
               if due && CanRenew(visits) then last.Some? && u <= last.value else last == st.last
  {
    if |visits| > 0 {
      var front := visits[..|visits| - 1];
      var v := visits[|visits| - 1];
      assert visits == front + [v];
      RequestRenewsOnce(p, st, front, u);
      WholeSecondsFit(u, v.done + FIVE_MINUTES);
      assert CanRenew(visits) <==> CanRenew(front) || (v.acquired && v.outcome.upgraded);
    }
  }

  /** Two visits one after the other; the first finishes exactly five minutes before the requested time. */
  function TwoVisits(u: int): seq<Visit> {
    var t := u - FIVE_MINUTES;
    var ok := Outcome(true, Some(Running), true);
    [Visit(t - SECOND, t, Some(u), 0, true, ok), Visit(t + SECOND, t + 2 * SECOND, Some(u), 0, true, ok)]
  }

  /** Storing the time drops the fraction of a second, so a request that has one is found due again. */
  lemma FractionalRequestRenewsTwice(u: int)
    requires u % SECOND != 0
    ensures OneRequest(TwoVisits(u), u) && CanRenew(TwoVisits(u)) && Serial(TwoVisits(u))
    ensures |Renewals(Policy(false, 0), Status(Running, None, false), TwoVisits(u))| == 2
  {
    var v, next := TwoVisits(u)[0], TwoVisits(u)[1];
    var p := Policy(false, 0);
    var st := Status(Running, None, false);
    assert v in TwoVisits(u);
    assert TwoVisits(u)[..1] == [v] && [v][..0] == [];
    assert Run(p, st, []) == st;
    assert Run(p, st, [v]) == After(p, st, v);
    assert |Renewals(p, st, [v])| == 1;
    assert Renews(p, After(p, st, v), next);
  }

  ghost predicate RenewsOnce(p: Policy, st: Status, visits: seq<Visit>) {
    |Renewals(p, st, visits)| == 1
  }

  /** A serial run that can renew, with a request for `u` that is due at its start. */
  ghost predicate Answers(p: Policy, st: Status, visits: seq<Visit>, u: int) {
    !p.autoRenew && Serial(visits) && OneRequest(visits, u) && CanRenew(visits) && (st.last.None? || u > st.last.value)
  }

  /** A request renews exactly once in every run that answers it, exactly when it is for a whole second. */
  lemma RenewsOnceIffWholeSecond(u: int)
    ensures u % SECOND == 0 <==>
            forall p: Policy, st: Status, visits: seq<Visit> :: Answers(p, st, visits, u) ==> RenewsOnce(p, st, visits)
  {
    if u % SECOND == 0 {
      forall p: Policy, st: Status, visits: seq<Visit> | Answers(p, st, visits, u) ensures RenewsOnce(p, st, visits) {
        RequestRenewsOnce(p, st, visits, u);
      }
    } else {
      FractionalRequestRenewsTwice(u);
      var p, st := Policy(false, 0), Status(Running, None, false);
      assert Answers(p, st, TwoVisits(u), u) && !RenewsOnce(p, st, TwoVisits(u));
    }
  }

  // ------------------------------------------------------------ which visits renew

  /** The status after a visit, field by field. */
  lemma StatusAfter(p: Policy, st: Status, v: Visit)
    ensures var after := After(p, st, v); var called := Due(p, st, v);
            var fine := v.outcome.upgraded && v.outcome.observed.Some? && v.outcome.written;
            && (after.leaseHeld <==> (called && v.acquired) || (st.leaseHeld && st.deployment != Running))
            && after.last == (if called && v.acquired && fine then Some(Seconds(v.done + FIVE_MINUTES)) else st.last)
            && after.deployment == (if called && !v.acquired then st.deployment
                                    else if fine then v.outcome.observed.value else Failed)
  {
  }

  /** A visit that takes the lease and upgrades. */
  predicate Able(v: Visit) {
    v.acquired && v.outcome.upgraded
  }

  /** The finishing times of the able visits that found the certificate within `delta` of its expiry. */
  function InsideDelta(delta: int, visits: seq<Visit>): seq<int> {
    if |visits| == 0 then []
    else
      var v := visits[|visits| - 1];
      InsideDelta(delta, visits[..|visits| - 1]) + (if Able(v) && v.certExpiry < v.now + delta then [v.done] else [])
  }

  /**
   * One visit more adds a renewal exactly when it is able and either automatic renewal is on and its certificate
   * expires within the delta, or it finds a request that lies past the recorded time.
   */
  lemma OneMoreVisitRenewsIff(p: Policy, st: Status, visits: seq<Visit>, v: Visit)
    ensures var last := Run(p, st, visits).last;
            Renewals(p, st, visits + [v]) == Renewals(p, st, visits) +
              if Able(v) && ((p.autoRenew && v.certExpiry < v.now + p.delta)
                             || (v.request.Some? && (last.None? || v.request.value > last.value)))
              then [v.done] else []
  {
    assert (visits + [v])[..|visits|] == visits;
  }

  /** Without requests the renewals of a run are those of automatic renewal, or none when it is off. */
  lemma {:induction false} AutomaticRenewals(p: Policy, st: Status, visits: seq<Visit>)
    requires forall v :: v in visits ==> v.request.None?
    ensures Renewals(p, st, visits) == if p.autoRenew then InsideDelta(p.delta, visits) else []
  {
    if |visits| > 0 {
      var front := visits[..|visits| - 1];
      AutomaticRenewals(p, st, front);
      assert visits == front + [visits[|visits| - 1]];
      OneMoreVisitRenewsIff(p, st, front, visits[|visits| - 1]);
    }
  }

  lemma SecondsMonotone(a: int, b: int)
    requires a <= b
    ensures Seconds(a) <= Seconds(b)
  {
  }

  lemma {:induction false} LastBounded(p: Policy, st: Status, visits: seq<Visit>, t: int)
    requires st.last.Some? ==> st.last.value <= Seconds(t + FIVE_MINUTES)
    requires forall v :: v in visits ==> v.done <= t
    ensures var last := Run(p, st, visits).last; last.Some? ==> last.value <= Seconds(t + FIVE_MINUTES)
  {
    if |visits| > 0 {
      LastBounded(p, st, visits[..|visits| - 1], t);
      assert visits[|visits| - 1] in visits;
      SecondsMonotone(visits[|visits| - 1].done + FIVE_MINUTES, t + FIVE_MINUTES);
    }
  }

  ghost predicate NotAfter(early: Option<int>, late: Option<int>) {
    early.Some? ==> late.Some? && early.value <= late.value
  }

  lemma VisitAdvances(p: Policy, st: Status, v: Visit)
    requires v.now <= v.done
    requires st.last.Some? ==> st.last.value <= Seconds(v.now + FIVE_MINUTES)
    ensures NotAfter(st.last, After(p, st, v).last)
  {
    SecondsMonotone(v.now + FIVE_MINUTES, v.done + FIVE_MINUTES);
  }

  /** What the last visit of a serial run finds recorded is at most five minutes ahead of its clock. */
  lemma FoundNotAhead(p: Policy, st: Status, visits: seq<Visit>)
    requires Serial(visits) && |visits| > 0
    requires st.last.Some? ==> st.last.value <= Seconds(visits[0].now + FIVE_MINUTES)
    ensures var n := |visits| - 1; var last := Run(p, st, visits[..n]).last;
            last.Some? ==> last.value <= Seconds(visits[n].now + FIVE_MINUTES)
  {
    var n := |visits| - 1;
    var t := visits[n].now;
    assert visits[0] in visits;
    SecondsMonotone(visits[0].now + FIVE_MINUTES, t + FIVE_MINUTES);
    LastBounded(p, st, visits[..n], t);
  }

  /** The recorded time never goes back, whatever requests and outcomes a serial run meets. */
  lemma {:induction false} LastUpdateAdvances(p: Policy, st: Status, visits: seq<Visit>, k: nat)
    requires Serial(visits) && k <= |visits|
    requires st.last.Some? && |visits| > 0 ==> st.last.value <= Seconds(visits[0].now + FIVE_MINUTES)
    ensures NotAfter(Run(p, st, visits[..k]).last, Run(p, st, visits).last)
    decreases |visits|
  {
    if k == |visits| {
      assert visits[..k] == visits;
    } else {
      var n := |visits| - 1;
      assert visits[..n][..k] == visits[..k];
      SerialFront(visits);
      LastUpdateAdvances(p, st, visits[..n], k);
      FoundNotAhead(p, st, visits);
      assert visits[n] in visits;
      VisitAdvances(p, Run(p, st, visits[..n]), visits[n]);
    }
  }

  lemma SerialFront(visits: seq<Visit>)
    requires Serial(visits) && |visits| > 0
    ensures Serial(visits[..|visits| - 1])
  {
    forall v | v in visits[..|visits| - 1] ensures v.now <= v.done {
      assert v in visits;
    }
  }

  /**
   * With manual renewal only, a later renewal answers a request past the second that was stored five minutes ahead
   * of the earlier one's finish; a request for a whole second is then more than five minutes past that finish.
   */
  lemma ManualRenewalsAreApart(p: Policy, st: Status, visits: seq<Visit>, i: nat, j: nat)
    requires !p.autoRenew && Serial(visits) && i < j < |visits|
    requires st.last.Some? ==> st.last.value <= Seconds(visits[0].now + FIVE_MINUTES)
    requires Renews(p, Run(p, st, visits[..i]), visits[i]) && Recorded(visits[i])
    requires Renews(p, Run(p, st, visits[..j]), visits[j])
    ensures visits[j].request.Some? && visits[j].request.value > Seconds(visits[i].done + FIVE_MINUTES)
    ensures visits[j].request.value % SECOND == 0 ==> visits[j].request.value > visits[i].done + FIVE_MINUTES
  {
    var upto := visits[..j];
    forall x | x in upto ensures x.now <= x.done { assert x in visits; }
    assert upto[..i + 1] == visits[..i + 1];
    assert visits[..i + 1][..i] == visits[..i];
    assert Run(p, st, visits[..i + 1]) == After(p, Run(p, st, visits[..i]), visits[i]);
    LastUpdateAdvances(p, st, upto, i + 1);
    if visits[j].request.value % SECOND == 0 {
      WholeSecondsFit(visits[j].request.value, visits[i].done + FIVE_MINUTES);
    }
  }

  // --------------------------------------------------------- the reconcile itself

  /** `POD_NAME` when set, else a name of the resource's own; never empty. */
  function HolderIdentity(podName: string, kind: string, name: string): (id: Identity)
    ensures podName != "" ==> id == podName
    ensures podName == "" ==> |id| > |name|
  {
    if podName == "" then kind + "-" + name + "-lock" else podName
  }

  /** Without `POD_NAME`, distinct resources of a kind lock under distinct identities. */
  lemma IdentitiesDistinct(kind: string, a: string, b: string)
    requires HolderIdentity("", kind, a) == HolderIdentity("", kind, b)
    ensures a == b
  {
    var x := HolderIdentity("", kind, a);
    var y := HolderIdentity("", kind, b);
    assert x == kind + "-" + a + "-lock" && y == kind + "-" + b + "-lock";
    assert |a| == |b|;
    assert a == x[|kind| + 1..|kind| + 1 + |a|];
    assert b == y[|kind| + 1..|kind| + 1 + |b|];
  }

  /**
   * Two resources of a kind in one namespace, each locking under its own name, are both renewing only if the one
   * whose lease was stored first has outlived its 120 seconds.
   */
  lemma RenewalsOverlapOnlyPastLease(w: World, steps: seq<Step>, kind: string, a: string, b: string)
    requires Init(w) && Lasting(w.lease, LEASE_TTL) && SingleThreaded(steps) && a != b
    requires forall s :: s in steps && s.Get? ==> s.ttl == LEASE_TTL
    requires Exec(w, steps).Phase(Client(HolderIdentity("", kind, a), 0)) == Renewing
    requires Exec(w, steps).Phase(Client(HolderIdentity("", kind, b), 0)) == Renewing
    ensures var v := Exec(w, steps); var i := HolderIdentity("", kind, a); var j := HolderIdentity("", kind, b);
            && i in v.holds && j in v.holds
            && var first := if v.holds[i].version < v.holds[j].version then v.holds[i] else v.holds[j];
               v.clock > first.renewed + LEASE_TTL * SECOND
  {
    var i := HolderIdentity("", kind, a);
    var j := HolderIdentity("", kind, b);
    if i == j { IdentitiesDistinct(kind, a, b); }
    OverlapOnlyAfterExpiry(w, steps, Client(i, 0), Client(j, 0));
    OverlapOnlyAfterExpiry(w, steps, Client(j, 0), Client(i, 0));
    HoldsLast(w, steps, LEASE_TTL);
  }

  /** What one reconcile meets: the request, whether the TLS pair is found, the job and how it goes, and the answers. */
  datatype Input = Input(
    request: Option<int>, tlsFound: bool, job: PeerCrypto.Step, pending: bool,
    observed: Option<Deployment>, written: bool)

  lemma OneMoreVisit(p: Policy, st: Status, visits: seq<Visit>, v: Visit, t: int)
    requires Serial(visits) && (forall u :: u in visits ==> u.done <= t) && t <= v.now <= v.done
    ensures Serial(visits + [v])
    ensures Run(p, st, visits + [v]) == After(p, Run(p, st, visits), v)
  {
    assert (visits + [v])[..|visits|] == visits;
  }

  lemma ServedLast(p: Policy, st: Status, visits: seq<Visit>, start: int)
    requires Serial(visits) && forall v :: v in visits ==> start <= v.now
    requires st.last.Some? && st.last.value <= Seconds(start + FIVE_MINUTES)
    ensures NotAfter(st.last, Run(p, st, visits).last)
  {
    if |visits| > 0 {
      assert visits[0] in visits;
      SecondsMonotone(start + FIVE_MINUTES, visits[0].now + FIVE_MINUTES);
    }
    LastUpdateAdvances(p, st, visits, 0);
    assert visits[..0] == [];
  }

  /** The upgrade outside a renewal; while an earlier one is pending it is not carried out. */
  function PlainJob(i: Input): PeerCrypto.Step {
    i.job.(refresh := false, upgraded := i.pending || i.job.upgraded)
  }

  class ResourceReconciler {
    const policy: Policy
    const lease: Session
    const peer: PeerCrypto.Peer
    var status: Status

    ghost predicate Valid()
      reads this, lease
    {
      lease.Valid()
    }

    constructor (policy: Policy, lease: Session, peer: PeerCrypto.Peer, status: Status)
      requires lease.Valid()
      ensures Valid() && this.policy == policy && this.lease == lease && this.peer == peer && this.status == status
    {
      this.policy := policy;
      this.lease := lease;
      this.peer := peer;
      this.status := status;
    }

    /** Tries for about five seconds; the clock and the other clients move on between tries. */
    method AcquireWithin(tries: nat) returns (acquired: bool)
      requires Valid() && lease.world.Phase(lease.me) == Idle
      modifies lease
      ensures Valid() && old(lease.trace) <= lease.trace && old(lease.world.clock) <= lease.world.clock
      ensures lease.world.Phase(lease.me) == if acquired then Renewing else Idle
      ensures acquired <==> WonSince(lease.start, lease.trace, |old(lease.trace)|, lease.me)
      ensures if acquired then 0 < lease.Made().gets - old(lease.Made()).gets <= tries
              else lease.Made().gets == old(lease.Made()).gets + tries
      ensures lease.Made().releaseReads == old(lease.Made()).releaseReads
    {
      acquired := false;
      ghost var before := lease.trace;
      for i := 0 to tries
        invariant lease.Made().gets == old(lease.Made()).gets + i
        invariant lease.Made().releaseReads == old(lease.Made()).releaseReads
        invariant Valid() && before <= lease.trace && old(lease.world.clock) <= lease.world.clock
        invariant !acquired && lease.world.Phase(lease.me) == Idle
        invariant !WonSince(lease.start, lease.trace, |before|, lease.me)
      {
        ghost var trying := lease.trace;
        var ok, _, _ := lease.AcquireLease(LEASE_TTL);
        WonInEither(lease.start, trying, lease.trace, |before|, lease.me);
        if ok {
          acquired := true;
          break;
        }
        ghost var tried := lease.trace;
        lease.Pause();
        WonInEither(lease.start, tried, lease.trace, |before|, lease.me);
      }
    }

    /** Renewing the certificates: allowed only between a successful acquire and the end of that reconcile. */
    method UpdateCerts(job: PeerCrypto.Step) returns (ok: bool, done: int)
      requires Valid() && lease.world.Phase(lease.me) == Renewing
      modifies lease, peer
      ensures Valid() && old(lease.trace) <= lease.trace && lease.world.Phase(lease.me) == Idle
      ensures old(lease.world.clock) <= done == lease.world.clock
      ensures !WonSince(lease.start, lease.trace, |old(lease.trace)|, lease.me) && lease.Made() == old(lease.Made())
      ensures peer.stored == PeerCrypto.After(old(peer.stored), job.(refresh := true))
      ensures ok <==> PeerCrypto.Completes(old(peer.stored), job.(refresh := true))
    {
      ghost var before := lease.trace;
      ok := peer.UpdateCerts(job);
      lease.Pause();
      lease.Do(Finish(lease.me));
      QuietSteps(lease.start, before, lease.trace, lease.me);
      done := lease.world.clock;
    }

    method DecideRenewal(request: Option<int>, certExpiry: int, now: int) returns (certificatesNeedToBeRenewed: bool)
      ensures certificatesNeedToBeRenewed == NeedsRenewal(policy, request, status.last, certExpiry, now)
    {
      certificatesNeedToBeRenewed := false;
      if status.last.Some? && request.Some? && request.value > status.last.value {
        certificatesNeedToBeRenewed := true;
      }
      if status.last.None? && request.Some? {
        certificatesNeedToBeRenewed := true;
      }
      if policy.autoRenew && certExpiry < now + policy.delta {
        certificatesNeedToBeRenewed := true;
      }
    }

    /** A renewal that has come to the running state gives its lease back. */
    method ReleaseIfRunning()
      requires Valid() && lease.world.Phase(lease.me) == Idle
      modifies this`status, lease
      ensures Valid() && old(lease.trace) <= lease.trace && lease.world.Phase(lease.me) == Idle
      ensures old(lease.world.clock) <= lease.world.clock
      ensures !WonSince(lease.start, lease.trace, |old(lease.trace)|, lease.me)
      ensures lease.Made().gets == old(lease.Made()).gets
      ensures lease.Made().releaseReads == old(lease.Made()).releaseReads
                + (if old(status).leaseHeld && old(status).deployment == Running then 1 else 0)
      ensures status == Freed(old(status))
    {
      if status.leaseHeld && status.deployment == Running {
        var _, _, _ := lease.ReleaseLease();
        status := status.(leaseHeld := false);
      }
    }

    /** A due renewal: takes the lease, renews, and reports when it was done. */
    method RenewLocked(job: PeerCrypto.Step) returns (acquired: bool, ok: bool, done: int)
      requires Valid() && lease.world.Phase(lease.me) == Idle
      modifies this`status, lease, peer
      ensures Valid() && old(lease.trace) <= lease.trace && lease.world.Phase(lease.me) == Idle
      ensures old(lease.world.clock) <= done <= lease.world.clock
      ensures acquired <==> WonSince(lease.start, lease.trace, |old(lease.trace)|, lease.me)
      ensures status == if acquired then old(status).(leaseHeld := true, deployment := UpdatingCertificates)
                else old(status)
      ensures peer.stored == if acquired then PeerCrypto.After(old(peer.stored), job.(refresh := true))
                else old(peer.stored)
      ensures ok <==> acquired && PeerCrypto.Completes(old(peer.stored), job.(refresh := true))
      ensures if acquired then 0 < lease.Made().gets - old(lease.Made()).gets <= 5
              else lease.Made().gets == old(lease.Made()).gets + 5
      ensures lease.Made().releaseReads == old(lease.Made()).releaseReads
    {
      ghost var before := lease.trace;
      acquired := AcquireWithin(5);
      ok, done := false, lease.world.clock;
      if acquired {
        ghost var won := lease.trace;
        status := status.(leaseHeld := true, deployment := UpdatingCertificates);
        ok, done := UpdateCerts(job);
        WonInEither(lease.start, won, lease.trace, |before|, lease.me);
      }
    }

    /** The start of a reconcile: whether to renew is decided before a lease still held is given back. */
    method Examine(i: Input) returns (found: bool, now: int, certExpiry: int, due: bool)
      requires Valid() && lease.world.Phase(lease.me) == Idle
      modifies this`status, lease
      ensures Valid() && old(lease.trace) <= lease.trace && lease.world.Phase(lease.me) == Idle
      ensures old(lease.world.clock) <= now <= lease.world.clock
      ensures !WonSince(lease.start, lease.trace, |old(lease.trace)|, lease.me)
      ensures lease.Made().gets == old(lease.Made()).gets
      ensures found <==> i.tlsFound && peer.stored.tls.Some?
      ensures status == if found then Freed(old(status)) else old(status)
      ensures found ==> certExpiry == peer.stored.tls.value.cert.notAfter
      ensures found ==> due == NeedsRenewal(policy, i.request, old(status).last, certExpiry, now)
      ensures lease.Made().releaseReads ==
                old(lease.Made()).releaseReads
                + (if found && old(status).leaseHeld && old(status).deployment == Running then 1 else 0)
    {
      ghost var before := lease.trace;
      lease.Pause();
      now := lease.world.clock;
      found := i.tlsFound && peer.stored.tls.Some?;
      certExpiry, due := 0, false;
      if found {
        certExpiry := peer.stored.tls.value.cert.notAfter;
        due := DecideRenewal(i.request, certExpiry, now);
        ghost var decided := lease.trace;
        ReleaseIfRunning();
        WonInEither(lease.start, decided, lease.trace, |before|, lease.me);
      }
    }

    /**
     * One reconcile of an installed resource. The visit reports the clock readings and whether the lease was
     * taken, which is so exactly when this reconcile made a winning write; there is none when the TLS pair is
     * not found, and then nothing changes.
     */
    method Reconcile(i: Input) returns (visit: Option<Visit>)
      requires Valid() && lease.world.Phase(lease.me) == Idle
      modifies this`status, lease, peer
      ensures Valid() && old(lease.trace) <= lease.trace && lease.world.Phase(lease.me) == Idle
      ensures old(lease.world.clock) <= lease.world.clock
      ensures visit.Some? <==> i.tlsFound && old(peer.stored).tls.Some?
      ensures visit.None? ==> status == old(status) && peer.stored == old(peer.stored)
      ensures (visit.Some? && visit.value.acquired) <==>
                WonSince(lease.start, lease.trace, |old(lease.trace)|, lease.me)
      ensures visit.Some? ==> var v := visit.value; var due := Due(policy, old(status), v);
                && v.request == i.request && v.certExpiry == old(peer.stored).tls.value.cert.notAfter
                && old(lease.world.clock) <= v.now <= v.done <= lease.world.clock
                && (v.acquired ==> due)
                && status == After(policy, old(status), v)
                && peer.stored == (if due && v.acquired then PeerCrypto.After(old(peer.stored), i.job.(refresh := true))
                                   else if due || i.pending then old(peer.stored)
                                   else PeerCrypto.After(old(peer.stored), i.job.(refresh := false)))
                && v.outcome.observed == i.observed && v.outcome.written == i.written
                && (v.outcome.upgraded <==>
                      if !due then PeerCrypto.Completes(old(peer.stored), PlainJob(i))
                      else v.acquired && PeerCrypto.Completes(old(peer.stored), i.job.(refresh := true)))
      ensures visit.Some? ==>
                lease.Made().releaseReads ==
                  old(lease.Made()).releaseReads
                  + (if old(status).leaseHeld && old(status).deployment == Running then 1 else 0)
      ensures visit.Some? ==>
                var v := visit.value; var tries := lease.Made().gets - old(lease.Made()).gets;
                && (tries > 0 <==>
                      || (policy.autoRenew && v.certExpiry < v.now + policy.delta)
                      || (i.request.Some? && (old(status).last.None? || i.request.value > old(status).last.value)))
                && (tries > 0 && !v.acquired ==> tries == 5)
    {
      ghost var before := lease.trace;
      var found, now, certExpiry, certificatesNeedToBeRenewed := Examine(i);
      if !found {
        return None;
      }
      var last := status.last;
      var acquired, upgraded, done := false, false, now;
      if certificatesNeedToBeRenewed {
        ghost var released := lease.trace;
        acquired, upgraded, done := RenewLocked(i.job);
        WonInEither(lease.start, released, lease.trace, |before|, lease.me);
        if upgraded {
          last := Some(Seconds(done + FIVE_MINUTES));
        }
      } else {
        upgraded := peer.PlainUpgrade(i.job, i.pending);
      }
      visit := Some(Visit(now, done, i.request, certExpiry, acquired, Outcome(upgraded, i.observed, i.written)));
      if !certificatesNeedToBeRenewed || acquired {
        WriteStatus(visit.value.outcome, last);
      }
    }

    /** The end of a reconcile: the observed state and the renewal time, if they could be had and written. */
    method WriteStatus(outcome: Outcome, last: Option<int>)
      modifies this`status
      ensures status == if outcome.upgraded && outcome.observed.Some? && outcome.written
                        then old(status).(deployment := outcome.observed.value, last := last)
                        else old(status).(deployment := Failed)
    {
      if !outcome.upgraded || outcome.observed.None? || !outcome.written {
        status := status.(deployment := Failed);
        return;
      }
      status := status.(deployment := outcome.observed.value, last := last);
    }

    /**
     * The controller's work on one resource, a reconcile at a time. The visits are a serial run and leave the
     * status the theorems above are about; in particular the recorded time has not gone back.
     */
    method Serve(inputs: seq<Input>) returns (visits: seq<Visit>)
      requires Valid() && lease.world.Phase(lease.me) == Idle
      modifies this`status, lease, peer
      ensures Valid() && lease.world.Phase(lease.me) == Idle
      ensures Serial(visits) && status == Run(policy, old(status), visits)
      ensures forall v :: v in visits ==> old(lease.world.clock) <= v.now && v.done <= lease.world.clock
      ensures (old(status).last.Some? ==> old(status).last.value <= Seconds(old(lease.world.clock) + FIVE_MINUTES))
                ==> NotAfter(old(status).last, status.last)
    {
      visits := [];
      ghost var start := lease.world.clock;
      for k := 0 to |inputs|
        invariant Valid() && lease.world.Phase(lease.me) == Idle && start <= lease.world.clock
        invariant Serial(visits) && status == Run(policy, old(status), visits)
        invariant forall v :: v in visits ==> start <= v.now && v.done <= lease.world.clock
      {
        ghost var t := lease.world.clock;
        var visit := Reconcile(inputs[k]);
        if visit.Some? {
          OneMoreVisit(policy, old(status), visits, visit.value, t);
          visits := visits + [visit.value];
        }
      }
      if old(status).last.Some? && old(status).last.value <= Seconds(start + FIVE_MINUTES) {
        ServedLast(policy, old(status), visits, start);
      }
    }
  }
}
