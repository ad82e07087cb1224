/**
 * `AcquireLease` and `ReleaseLease` as they are written, with other clients and the clock free to move
 * before each of their accesses to the API server. Every run of these methods is a run of the protocol.
 */
module LeaseClient {
  import opened Wrappers
  import opened LeaseProtocol

  /** Steps of other clients and of the clock. */
  predicate Others(steps: seq<Step>, me: Client) {
    forall s :: s in steps ==> s.Tick? || s.client != me
  }

  lemma {:induction false} OthersLeavePhase(w: World, steps: seq<Step>, me: Client)
    requires Others(steps, me)
    ensures Exec(w, steps).Phase(me) == w.Phase(me)
  {
    if |steps| > 0 {
      assert steps[|steps| - 1] in steps;
      OthersLeavePhase(w, steps[..|steps| - 1], me);
    }
  }

  /** Step `k` of the trace is the write that gave `me` the lease. */
  ghost predicate Wins(start: World, trace: seq<Step>, k: nat, me: Client)
    requires k < |trace|
  {
    trace[k].Write? && trace[k].client == me && Exec(start, trace[..k + 1]).Phase(me) == Renewing
  }

  /** `me` was given the lease somewhere in the trace from step `from` on. */
  ghost predicate WonSince(start: World, trace: seq<Step>, from: nat, me: Client) {
    exists k: nat :: from <= k < |trace| && Wins(start, trace, k, me)
  }

  lemma WonInEither(start: World, a: seq<Step>, b: seq<Step>, from: nat, me: Client)
    requires from <= |a| && a <= b
    ensures WonSince(start, b, from, me) <==> WonSince(start, a, from, me) || WonSince(start, b, |a|, me)
  {
    forall k: nat | k < |a| ensures Wins(start, a, k, me) <==> Wins(start, b, k, me) {
      assert a[..k + 1] == b[..k + 1];
    }
    if k: nat :| from <= k < |a| && Wins(start, a, k, me) {
      assert Wins(start, b, k, me);
    }
  }

  /** Neither other clients nor steps other than a write give `me` the lease. */
  lemma QuietSteps(start: World, a: seq<Step>, b: seq<Step>, me: Client)
    requires a <= b && forall k :: |a| <= k < |b| ==> !b[k].Write? || b[k].client != me
    ensures !WonSince(start, b, |a|, me)
    ensures Exec(start, a).clock <= Exec(start, b).clock
  {
    ClockAdvances(start, a, b);
  }

  lemma OwnWrite(start: World, a: seq<Step>, s: Step, me: Client)
    requires s.Write? && s.client == me
    ensures WonSince(start, a + [s], |a|, me) <==> Exec(start, a + [s]).Phase(me) == Renewing
    ensures Exec(start, a).clock <= Exec(start, a + [s]).clock
  {
    ClockAdvances(start, a, a + [s]);
    assert (a + [s])[..|a| + 1] == a + [s];
    if Exec(start, a + [s]).Phase(me) == Renewing {
      assert Wins(start, a + [s], |a|, me);
    }
  }

  // ------------------------------------------------------- what a client has done

  /** How often a client has called the API server, by kind of call. */
  datatype Calls = Calls(gets: nat, writes: nat, releaseReads: nat, releaseWrites: nat)

  function OneMore(n: Calls, s: Step, me: Client): Calls {
    if s.Tick? || s.client != me then n
    else
      match s
      case Get(_, _, _) => n.(gets := n.gets + 1)
      case Write(_, _) => n.(writes := n.writes + 1)
      case GetForRelease(_, _) => n.(releaseReads := n.releaseReads + 1)
      case WriteRelease(_, _) => n.(releaseWrites := n.releaseWrites + 1)
      case _ => n
  }

  function CallsIn(trace: seq<Step>, me: Client): Calls {
    if |trace| == 0 then Calls(0, 0, 0, 0)
    else OneMore(CallsIn(trace[..|trace| - 1], me), trace[|trace| - 1], me)
  }

  lemma CallsSnoc(trace: seq<Step>, s: Step, me: Client)
    ensures CallsIn(trace + [s], me) == OneMore(CallsIn(trace, me), s, me)
  {
    assert (trace + [s])[..|trace|] == trace;
  }

  lemma {:induction false} OthersMakeNoCalls(trace: seq<Step>, others: seq<Step>, me: Client)
    requires Others(others, me)
    ensures CallsIn(trace + others, me) == CallsIn(trace, me)
  {
    if |others| == 0 {
      assert trace + others == trace;
    } else {
      var front := others[..|others| - 1];
      OthersMakeNoCalls(trace, front, me);
      assert trace + others == trace + front + [others[|others| - 1]];
      assert others[|others| - 1] in others;
      CallsSnoc(trace + front, others[|others| - 1], me);
    }
  }

  /** What a call to the API server sees when it is step `k` of the trace: nothing when it fails. */
  function Seen(start: World, trace: seq<Step>, k: nat, fails: bool): Option<Record>
    requires k < |trace|
  {
    if fails then None else Exec(start, trace[..k]).lease
  }

  /** Step `k` is this client's read before an attempt, and saw `read`. */
  ghost predicate ReadAt(start: World, trace: seq<Step>, k: nat, me: Client, read: Option<Record>)
    requires k < |trace|
  {
    trace[k].Get? && trace[k].client == me && read == Seen(start, trace, k, trace[k].fails)
  }

  /** Step `k` is this client's read before a release, and saw `read`. */
  ghost predicate ReleaseReadAt(start: World, trace: seq<Step>, k: nat, me: Client, read: Option<Record>)
    requires k < |trace|
  {
    trace[k].GetForRelease? && trace[k].client == me && read == Seen(start, trace, k, trace[k].fails)
  }

  function ClockAt(start: World, trace: seq<Step>, m: nat): int
    requires m <= |trace|
  {
    Exec(start, trace[..m]).clock
  }

  /** From step `from` on the client saw `read`, and later the clock showed `now`. */
  ghost predicate SawThenClock(start: World, trace: seq<Step>, from: nat, me: Client, read: Option<Record>, now: int) {
    exists k: nat, m: nat ::
      from <= k < m <= |trace| && ReadAt(start, trace, k, me, read) && ClockAt(start, trace, m) == now
  }

  ghost predicate SawForRelease(start: World, trace: seq<Step>, from: nat, me: Client, read: Option<Record>) {
    exists k: nat :: from <= k < |trace| && ReleaseReadAt(start, trace, k, me, read)
  }

  lemma SawThenClockLater(start: World, a: seq<Step>, b: seq<Step>, from: nat, me: Client,
                          read: Option<Record>, now: int)
    requires a <= b && SawThenClock(start, a, from, me, read, now)
    ensures SawThenClock(start, b, from, me, read, now)
  {
    var k: nat, m: nat :| from <= k < m <= |a| && ReadAt(start, a, k, me, read) && ClockAt(start, a, m) == now;
    assert a[..k] == b[..k] && a[..m] == b[..m];
    assert ReadAt(start, b, k, me, read) && ClockAt(start, b, m) == now;
  }

  lemma SawForReleaseLater(start: World, a: seq<Step>, b: seq<Step>, from: nat, me: Client, read: Option<Record>)
    requires a <= b && SawForRelease(start, a, from, me, read)
    ensures SawForRelease(start, b, from, me, read)
  {
    var k: nat :| from <= k < |a| && ReleaseReadAt(start, a, k, me, read);
    assert a[..k] == b[..k];
    assert ReleaseReadAt(start, b, k, me, read);
  }

  /** How an attempt went: what it read, the clock reading it decided by, and the two stamps. */
  datatype Attempt = Attempt(read: Option<Record>, decided: int, first: int, second: int)

  /** The record an attempt stores, one version on from the one it read. */
  ghost predicate Stores(a: Attempt, me: Client, ttl: int, stored: Option<Record>) {
    && a.decided <= a.first <= a.second
    && stored == Some(StoredBy(a.read, a.decided, me.id, ttl, a.first, a.second,
                               if a.read.Some? then a.read.value.version + 1 else 1))
  }

  class Session {
    const me: Client
    ghost const start: World
    ghost var trace: seq<Step>
    var world: World

    ghost predicate Valid()
      reads this
    {
      Init(start) && world == Exec(start, trace)
    }

    constructor (me: Client, world: World)
      requires Init(world)
      ensures Valid() && this.me == me && this.world == world && trace == []
    {
      this.me := me;
      this.start := world;
      this.trace := [];
      this.world := world;
    }

    /** Other clients take any number of steps; the contract is all a caller may use. */
    method Interfere()
      requires Valid()
      modifies this
      ensures Valid() && world.Phase(me) == old(world.Phase(me))
      ensures exists others :: Others(others, me) && trace == old(trace) + others
    {
      assert Others([], me) && trace == trace + [];
    }

    /** The calls this client has made so far. */
    ghost function Made(): Calls
      reads this
    {
      CallsIn(trace, me)
    }

    /** The caller's view of a pause: its own state stands still, it makes no call and is given nothing. */
    method Pause()
      requires Valid()
      modifies this
      ensures Valid() && old(trace) <= trace && world.Phase(me) == old(world.Phase(me)) && Made() == old(Made())
      ensures old(world.clock) <= world.clock && !WonSince(start, trace, |old(trace)|, me)
      ensures forall k :: |old(trace)| <= k < |trace| ==> trace[k].Tick? || trace[k].client != me
    {
      ghost var before := trace;
      Interfere();
      ghost var others :| Others(others, me) && trace == before + others;
      forall k | |before| <= k < |trace| ensures trace[k].Tick? || trace[k].client != me {
        assert trace[k] == others[k - |before|];
      }
      OthersMakeNoCalls(before, others, me);
      QuietSteps(start, before, trace, me);
    }

    method Do(s: Step)
      requires Valid()
      modifies this
      ensures Valid() && world == Apply(old(world), s) && trace == old(trace) + [s]
      ensures Made() == OneMore(old(Made()), s, me)
    {
      ExecSnoc(start, trace, s);
      CallsSnoc(trace, s, me);
      world := Apply(world, s);
      trace := trace + [s];
    }

    /** `leases.Get`: absence and failure look the same to the caller. */
    method GetLease(ttl: int) returns (lease: Option<Record>)
      requires Valid() && world.Phase(me) == Idle
      modifies this
      ensures Valid() && old(trace) <= trace && Made() == old(Made()).(gets := old(Made()).gets + 1)
      ensures old(world.clock) <= world.clock && !WonSince(start, trace, |old(trace)|, me)
      ensures exists k: nat :: |old(trace)| <= k < |trace| && ReadAt(start, trace, k, me, lease)
      ensures world.Phase(me) == Fetched(lease, ttl)
    {
      ghost var before := trace;
      Pause();
      ghost var paused := trace;
      var fails: bool := *;
      lease := if fails then None else world.lease;
      Do(Get(me, ttl, fails));
      QuietSteps(start, before, trace, me);
      assert trace[..|paused|] == paused;
      assert ReadAt(start, trace, |paused|, me, lease);
    }

    /** The expiry test reads the clock once. */
    method ReadClock() returns (now: int)
      requires Valid() && world.Phase(me).Fetched?
      modifies this
      ensures Valid() && old(trace) <= trace && Made() == old(Made())
      ensures old(world.clock) <= now <= world.clock && !WonSince(start, trace, |old(trace)|, me)
      ensures exists m: nat :: |old(trace)| <= m <= |trace| && ClockAt(start, trace, m) == now
      ensures var p := old(world.Phase(me)); var b := BranchFor(p.read, me.id, now);
              world.Phase(me) == if b.None? then Idle else Chosen(b.value, p.read, p.ttl)
    {
      ghost var before := trace;
      Pause();
      ghost var paused := trace;
      now := world.clock;
      Do(Choose(me));
      QuietSteps(start, before, trace, me);
      assert trace[..|paused|] == paused;
      assert ClockAt(start, trace, |paused|) == now;
    }

    /** The lease as it is read, and the clock reading its expiry is tested against. */
    method ReadAndDecide(ttl: int) returns (read: Option<Record>, now: int)
      requires Valid() && world.Phase(me) == Idle
      modifies this
      ensures Valid() && old(trace) <= trace && Made() == old(Made()).(gets := old(Made()).gets + 1)
      ensures old(world.clock) <= now <= world.clock && !WonSince(start, trace, |old(trace)|, me)
      ensures SawThenClock(start, trace, |old(trace)|, me, read, now)
      ensures var b := BranchFor(read, me.id, now);
              world.Phase(me) == if b.None? then Idle else Chosen(b.value, read, ttl)
    {
      ghost var before := trace;
      read := GetLease(ttl);
      ghost var got := trace;
      ghost var k: nat :| |before| <= k < |got| && ReadAt(start, got, k, me, read);
      now := ReadClock();
      assert got[..k] == trace[..k];
      assert ReadAt(start, trace, k, me, read);
      WonInEither(start, got, trace, |before|, me);
    }

    /** The stamps read it again, twice on creation. */
    method StampTimes() returns (first: int, second: int)
      requires Valid() && world.Phase(me).Chosen? && (world.Phase(me).branch != Create ==> world.Phase(me).read.Some?)
      modifies this
      ensures Valid() && old(trace) <= trace && Made() == old(Made())
      ensures old(world.clock) <= first <= second <= world.clock && !WonSince(start, trace, |old(trace)|, me)
      ensures var p := old(world.Phase(me));
              world.Phase(me) == Stamped(p.branch, p.read, Stamping(p.branch, p.read, me.id, p.ttl, first, second))
    {
      ghost var before := trace;
      Pause();
      first := world.clock;
      var pause: nat := *;
      Do(Stamp(me, pause));
      second := world.clock;
      QuietSteps(start, before, trace, me);
    }

    /** `leases.Create` and `leases.Update`: accepted only against an absent object or the version read. */
    method Send(lease: Record) returns (ok: bool)
      requires Valid() && world.Phase(me).Stamped? && world.Phase(me).write == lease
      requires lease.renewed.Some? && lease.duration.Some?
      requires world.Phase(me).branch == Create ==> lease.version == 0
      modifies this
      ensures Valid() && old(trace) <= trace && old(world.clock) <= world.clock
      ensures Made() == old(Made()).(writes := old(Made()).writes + 1)
      ensures world.Phase(me) == if ok then Renewing else Idle
      ensures ok <==> WonSince(start, trace, |old(trace)|, me)
      ensures ok ==>
                && me.id in world.holds
                && world.lease.Some? && world.lease.value.renewed.Some? && world.lease.value.duration.Some?
      ensures ok ==> world.holds[me.id] == HoldOf(world.lease.value, world.clock)
      ensures ok ==> world.lease.value == lease.(version := lease.version + 1)
    {
      ghost var before := trace;
      Pause();
      ghost var paused := trace;
      var reply: Reply := *;
      Do(Write(me, reply));
      ok := world.Phase(me) == Renewing;
      OwnWrite(start, paused, Write(me, reply), me);
      WonInEither(start, paused, trace, |before|, me);
    }

    /** The stored record backs a hold of this client's that begins now. */
    ghost predicate HasFreshHold()
      reads this
    {
      && world.lease.Some? && world.lease.value.holder == Some(me.id)
      && world.lease.value.renewed.Some? && world.lease.value.duration.Some?
      && me.id in world.holds && world.holds[me.id] == HoldOf(world.lease.value, world.clock)
    }

    /** No lease was seen: create one. */
    method CreateNew(ttl: int) returns (ok: bool, first: int, second: int)
      requires Valid() && world.Phase(me) == Chosen(Create, None, ttl)
      modifies this
      ensures Valid() && old(trace) <= trace && old(world.clock) <= first <= second <= world.clock
      ensures Made() == old(Made()).(writes := old(Made()).writes + 1)
      ensures ok <==> WonSince(start, trace, |old(trace)|, me)
      ensures world.Phase(me) == if ok then Renewing else Idle
      ensures ok ==> HasFreshHold()
      ensures ok ==> world.lease == Some(Record(Some(me.id), Some(Micro(first)), Some(Micro(second)), Some(ttl), 1))
    {
      ghost var before := trace;
      first, second := StampTimes();
      ghost var stamped := trace;
      ok := Send(Record(Some(me.id), Some(Micro(first)), Some(Micro(second)), Some(ttl), 0));
      WonInEither(start, stamped, trace, |before|, me);
    }

    /** A lease without a holder, or an expired one: take it over. */
    method TakeOver(read: Record, ttl: int) returns (ok: bool, first: int, second: int)
      requires Valid() && world.Phase(me) == Chosen(Take, Some(read), ttl)
      modifies this
      ensures Valid() && old(trace) <= trace && old(world.clock) <= first <= second <= world.clock
      ensures Made() == old(Made()).(writes := old(Made()).writes + 1)
      ensures ok <==> WonSince(start, trace, |old(trace)|, me)
      ensures world.Phase(me) == if ok then Renewing else Idle
      ensures ok ==> HasFreshHold()
      ensures ok ==> world.lease == Some(Record(Some(me.id), Some(Micro(second)), Some(Micro(second)), Some(ttl),
                                                read.version + 1))
    {
      ghost var before := trace;
      first, second := StampTimes();
      ghost var stamped := trace;
      var lease := read.(holder := Some(me.id));
      lease := lease.(acquired := Some(Micro(second)), renewed := Some(Micro(second)));
      lease := lease.(duration := Some(ttl));
      ok := Send(lease);
      WonInEither(start, stamped, trace, |before|, me);
    }

    /** The client's own lease: renew it. */
    method RenewOwn(read: Record, ghost ttl: int) returns (ok: bool, first: int, second: int)
      requires read.holder == Some(me.id) && read.duration.Some?
      requires Valid() && world.Phase(me) == Chosen(Renew, Some(read), ttl)
      modifies this
      ensures Valid() && old(trace) <= trace && old(world.clock) <= first <= second <= world.clock
      ensures Made() == old(Made()).(writes := old(Made()).writes + 1)
      ensures ok <==> WonSince(start, trace, |old(trace)|, me)
      ensures world.Phase(me) == if ok then Renewing else Idle
      ensures ok ==> HasFreshHold()
      ensures ok ==> world.lease == Some(read.(renewed := Some(Micro(second)), version := read.version + 1))
    {
      ghost var before := trace;
      first, second := StampTimes();
      ghost var stamped := trace;
      ok := Send(read.(renewed := Some(Micro(second))));
      WonInEither(start, stamped, trace, |before|, me);
    }

    /** What `AcquireLease` does with what it read. */
    method ActOn(read: Option<Record>, now: int, ttl: int)
      returns (acquired: bool, failed: bool, ghost first: int, ghost second: int)
      requires Valid() && now <= world.clock
      requires var b := BranchFor(read, me.id, now);
               world.Phase(me) == if b.None? then Idle else Chosen(b.value, read, ttl)
      modifies this
      ensures Valid() && old(trace) <= trace && old(world.clock) <= world.clock
      ensures !acquired && !failed <==> HeldByOther(read, now, me.id)
      ensures Made() == old(Made()).(writes := old(Made()).writes + (if acquired || failed then 1 else 0))
      ensures acquired ==> !failed
      ensures acquired <==> WonSince(start, trace, |old(trace)|, me)
      ensures world.Phase(me) == if acquired then Renewing else Idle
      ensures acquired ==> Stores(Attempt(read, now, first, second), me, ttl, world.lease)
      ensures acquired ==> second <= world.clock && HasFreshHold()
    {
      BranchFields(read, me.id, now);
      if read.None? {
        acquired, first, second := CreateNew(ttl);
        failed := !acquired;
      } else if read.value.holder.None? || read.value.holder.value == "" || Expired(read.value, now) {
        acquired, first, second := TakeOver(read.value, ttl);
        failed := !acquired;
      } else if read.value.holder.Some? && read.value.holder.value == me.id {
        acquired, first, second := RenewOwn(read.value, ttl);
        failed := !acquired;
      } else {
        acquired, failed, first, second := false, false, now, now;
      }
    }

    /**
     * Whatever the others do: the call reads the lease once and a clock afterwards, and unless these show another,
     * unexpired holder it writes once. It answers "not acquired" without an error only for such a holder. Success is
     * a winning write: the stored record is then the one `how` describes and gives this client a fresh hold.
     */
    method AcquireLease(ttl: int) returns (acquired: bool, failed: bool, ghost how: Attempt)
      requires Valid() && world.Phase(me) == Idle
      modifies this
      ensures Valid() && old(trace) <= trace && old(world.clock) <= world.clock
      ensures SawThenClock(start, trace, |old(trace)|, me, how.read, how.decided)
      ensures old(world.clock) <= how.decided <= world.clock
      ensures !acquired && !failed <==> HeldByOther(how.read, how.decided, me.id)
      ensures Made() == old(Made()).(gets := old(Made()).gets + 1,
                                     writes := old(Made()).writes + (if acquired || failed then 1 else 0))
      ensures acquired ==> !failed
      ensures acquired <==> WonSince(start, trace, |old(trace)|, me)
      ensures world.Phase(me) == if acquired then Renewing else Idle
      ensures acquired ==> Stores(how, me, ttl, world.lease) && how.second <= world.clock && HasFreshHold()
    {
      ghost var before := trace;
      var read, now := ReadAndDecide(ttl);
      ghost var chosen := trace;
      ghost var first, second;
      acquired, failed, first, second := ActOn(read, now, ttl);
      how := Attempt(read, now, first, second);
      WonInEither(start, chosen, trace, |before|, me);
      SawThenClockLater(start, chosen, trace, |before|, me, read, now);
    }

    /** `leases.Get` before a release; the client goes on only when it sees its own name. */
    method GetOwnLease() returns (lease: Option<Record>)
      requires Valid() && world.Phase(me) == Idle
      modifies this
      ensures Valid() && old(trace) <= trace
      ensures Made() == old(Made()).(releaseReads := old(Made()).releaseReads + 1)
      ensures old(world.clock) <= world.clock && !WonSince(start, trace, |old(trace)|, me)
      ensures exists k: nat :: |old(trace)| <= k < |trace| && ReleaseReadAt(start, trace, k, me, lease)
      ensures world.Phase(me) == if lease.Some? && lease.value.holder == Some(me.id) then Releasing(lease) else Idle
      ensures forall s :: s in trace[|old(trace)|..] ==> !(s.WriteRelease? && s.client == me)
    {
      ghost var before := trace;
      Pause();
      ghost var paused := trace;
      var fails: bool := *;
      lease := if fails then None else world.lease;
      Do(GetForRelease(me, fails));
      QuietSteps(start, before, trace, me);
      assert trace[..|paused|] == paused;
      assert ReleaseReadAt(start, trace, |paused|, me, lease);
    }

    method SendRelease(lease: Record, ghost read: Record) returns (failed: bool, ghost cleared: bool)
      requires Valid() && world.Phase(me) == Releasing(Some(read)) && lease == read.(holder := Some(""))
      modifies this
      ensures Valid() && old(trace) <= trace && world.Phase(me) == Idle && (failed || cleared)
      ensures Made() == old(Made()).(releaseWrites := old(Made()).releaseWrites + 1)
      ensures old(world.clock) <= world.clock && !WonSince(start, trace, |old(trace)|, me)
      ensures cleared ==> world.lease == Some(lease.(version := read.version + 1)) && me.id !in world.holds
    {
      ghost var before := trace;
      Pause();
      var reply: Reply := *;
      var stored := reply != Refused && Accepts(world, Take, lease);
      Do(WriteRelease(me, reply));
      QuietSteps(start, before, trace, me);
      return reply == Lost || !stored, stored;
    }

    /**
     * Reads the lease once, and writes once exactly when it saw its own name there. Then either the lease was
     * cleared or an error says that it may not be; an error may hide an update that was stored.
     */
    method ReleaseLease() returns (failed: bool, ghost cleared: bool, ghost read: Option<Record>)
      requires Valid() && world.Phase(me) == Idle
      modifies this
      ensures Valid() && old(trace) <= trace && world.Phase(me) == Idle
      ensures old(world.clock) <= world.clock && !WonSince(start, trace, |old(trace)|, me)
      ensures SawForRelease(start, trace, |old(trace)|, me, read)
      ensures failed || cleared <==> read.Some? && read.value.holder == Some(me.id)
      ensures Made() == old(Made()).(releaseReads := old(Made()).releaseReads + 1,
                                     releaseWrites := old(Made()).releaseWrites + (if failed || cleared then 1 else 0))
      ensures cleared ==> world.lease.Some? && world.lease.value.holder == Some("") && me.id !in world.holds
      ensures cleared ==> world.lease == Some(read.value.(holder := Some(""), version := read.value.version + 1))
      ensures !failed && !cleared ==> forall s :: s in trace[|old(trace)|..] ==> !(s.WriteRelease? && s.client == me)
    {
      ghost var before := trace;
      var lease := GetOwnLease();
      ghost var got := trace;
      ghost var k: nat :| |before| <= k < |got| && ReleaseReadAt(start, got, k, me, lease);
      read := lease;
      if lease.None? || lease.value.holder != Some(me.id) {
        return false, false, read;
      }
      failed, cleared := SendRelease(lease.value.(holder := Some("")), lease.value);
      WonInEither(start, got, trace, |before|, me);
      SawForReleaseLater(start, got, trace, |before|, me, read);
    }
  }
}
