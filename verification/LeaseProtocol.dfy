/**
 * The lease lock of controllers/utils/lease.go as interleaved atomic steps over one Lease object.
 *
 * A client reads the object, tests its expiry against the clock, reads the clock again to stamp the new
 * times, and writes back with the resource version it read; any other client's step and any passage of
 * time may come between two of its steps. Times are in nanoseconds and stored truncated to microseconds.
 */
module LeaseProtocol {
  import opened Wrappers

  const SECOND: int := 1_000_000_000

  type Identity = s: string | |s| > 0 witness "x"

  /** A client is a thread acting under a holder identity; threads of one pod share its identity. */
  datatype Client = Client(id: Identity, thread: nat)

  /** `coordinationv1.LeaseSpec` (every field is a pointer) and the object's resource version. */
  datatype Record = Record(
    holder: Option<string>, acquired: Option<int>, renewed: Option<int>, duration: Option<int>, version: nat)

  datatype Branch = Create | Take | Renew

  datatype Phase =
    | Idle
    | Fetched(read: Option<Record>, ttl: int)
    | Chosen(branch: Branch, read: Option<Record>, ttl: int)
    | Stamped(branch: Branch, read: Option<Record>, write: Record)
    | Renewing
    | Releasing(read: Option<Record>)

  /** The hold a client was told it has: the stored renew time, duration and version, and when it was stored. */
  datatype Hold = Hold(renewed: int, duration: int, version: nat, at: int) {
    function Expiry(): int {
      renewed + duration * SECOND
    }
  }

  datatype World = World(clock: int, lease: Option<Record>, phases: map<Client, Phase>, holds: map<Identity, Hold>) {
    function Phase(c: Client): Phase {
      if c in phases then phases[c] else Idle
    }

    function To(c: Client, p: Phase): World {
      this.(phases := phases[c := p])
    }
  }

  /** What the API server answers to a write: done, refused, or done but the answer was lost. */
  datatype Reply = Done | Refused | Lost

  datatype Step =
    | Tick(elapsed: nat)
    | Get(client: Client, ttl: int, fails: bool)
    | Choose(client: Client)
    | Stamp(client: Client, pause: nat)
    | Write(client: Client, reply: Reply)
    | Finish(client: Client)
    | GetForRelease(client: Client, fails: bool)
    | WriteRelease(client: Client, reply: Reply)

  function Micro(t: int): (r: int)
    ensures r <= t < r + 1000
    ensures r % 1000 == 0
  {
    t - t % 1000
  }

  lemma MicroBetween(a: int, b: int)
    requires a <= b
    ensures Micro(a) <= Micro(b)
    ensures a % 1000 == 0 ==> a <= Micro(b)
  {
  }

  /** `leaseExpired` at clock reading `now`. */
  predicate Expired(r: Record, now: int) {
    r.renewed.None? || r.duration.None? || now > r.renewed.value + r.duration.value * SECOND
  }

  predicate Unheld(r: Record, now: int) {
    r.holder.None? || r.holder.value == "" || Expired(r, now)
  }

  /** The branch `AcquireLease` takes for what it read, if any. */
  function BranchFor(read: Option<Record>, id: string, now: int): Option<Branch> {
    if read.None? then Some(Create)
    else if Unheld(read.value, now) then Some(Take)
    else if read.value.holder == Some(id) then Some(Renew)
    else None
  }

  /** The record written back: `first` is the acquire reading of the clock, `second` the renew reading. */
  function Stamping(branch: Branch, read: Option<Record>, id: string, ttl: int, first: int, second: int): Record
    requires branch != Create ==> read.Some?
  {
    match branch
    case Create => Record(Some(id), Some(Micro(first)), Some(Micro(second)), Some(ttl), 0)
    case Take => Record(Some(id), Some(Micro(second)), Some(Micro(second)), Some(ttl), read.value.version)
    case Renew => read.value.(renewed := Some(Micro(second)))
  }

  /** Create succeeds only on an absent object; update only against the version it carries. */
  predicate Accepts(w: World, branch: Branch, write: Record) {
    if branch == Create then w.lease.None? else w.lease.Some? && w.lease.value.version == write.version
  }

  function Put(w: World, write: Record): World {
    w.(lease := Some(write.(version := if w.lease.Some? then w.lease.value.version + 1 else 1)))
  }

  function HoldOf(r: Record, now: int): Hold
    requires r.renewed.Some? && r.duration.Some?
  {
    Hold(r.renewed.value, r.duration.value, r.version, now)
  }

  /** One atomic step; a step its client is not ready for changes nothing. */
  function Apply(w: World, s: Step): World {
    match s
    case Tick(d) => w.(clock := w.clock + d)
    case Get(c, ttl, fails) =>
      if w.Phase(c) != Idle then w else w.To(c, Fetched(if fails then None else w.lease, ttl))
    case Choose(c) =>
      var p := w.Phase(c);
      if !p.Fetched? then w
      else
        var chosen := BranchFor(p.read, c.id, w.clock);
        w.To(c, if chosen.None? then Idle else Chosen(chosen.value, p.read, p.ttl))
    case Stamp(c, pause) =>
      var p := w.Phase(c);
      if !p.Chosen? || (p.branch != Create && p.read.None?) then w
      else
        var second := w.clock + pause;
        w.(clock := second).To(c, Stamped(p.branch, p.read, Stamping(p.branch, p.read, c.id, p.ttl, w.clock, second)))
    case Write(c, reply) =>
      var p := w.Phase(c);
      if !p.Stamped? then w
      else if reply == Refused || !Accepts(w, p.branch, p.write) then w.To(c, Idle)
      else
        var stored := Put(w, p.write);
        if reply == Lost || p.write.renewed.None? || p.write.duration.None? then stored.To(c, Idle)
        else
          stored.(holds := w.holds[c.id := HoldOf(stored.lease.value, w.clock)]).To(c, Renewing)
    case Finish(c) =>
      if w.Phase(c) != Renewing then w else w.To(c, Idle)
    case GetForRelease(c, fails) =>
      if w.Phase(c) != Idle then w
      else if !fails && w.lease.Some? && w.lease.value.holder == Some(c.id) then w.To(c, Releasing(w.lease))
      else w
    case WriteRelease(c, reply) =>
      var p := w.Phase(c);
      if !p.Releasing? then w
      else if reply == Refused || p.read.None? || !Accepts(w, Take, p.read.value) then w.To(c, Idle)
      else Put(w, p.read.value.(holder := Some(""))).(holds := w.holds - {c.id}).To(c, Idle)
  }

  function Exec(w: World, steps: seq<Step>): World {
    if |steps| == 0 then w else Apply(Exec(w, steps[..|steps| - 1]), steps[|steps| - 1])
  }

  lemma ExecSnoc(w: World, steps: seq<Step>, s: Step)
    ensures Exec(w, steps + [s]) == Apply(Exec(w, steps), s)
  {
    assert (steps + [s])[..|steps|] == steps;
  }

  /** Time does not run backwards. */
  lemma {:induction false} ClockAdvances(w: World, a: seq<Step>, b: seq<Step>)
    requires a <= b
    ensures Exec(w, a).clock <= Exec(w, b).clock
  {
    if a == b {
      return;
    }
    assert a <= b[..|b| - 1];
    ClockAdvances(w, a, b[..|b| - 1]);
  }

  // ------------------------------------------------------------- the invariant

  /** Stored times are whole microseconds, in the past, acquire before renew. */
  ghost predicate TimesOrdered(r: Record, clock: int) {
    && (r.renewed.Some? ==> r.renewed.value <= clock && r.renewed.value % 1000 == 0)
    && (r.renewed.Some? && r.acquired.Some? ==> r.acquired.value <= r.renewed.value)
  }

  /** What was read is what is stored, unless someone has written since. */
  ghost predicate Current(w: World, read: Record) {
    && w.lease.Some?
    && read.version <= w.lease.value.version
    && (read.version == w.lease.value.version ==> read == w.lease.value)
    && TimesOrdered(read, w.clock)
  }

  ghost predicate PhaseOk(w: World, c: Client, p: Phase) {
    match p
    case Idle => true
    case Renewing => true
    case Fetched(read, _) => read.Some? ==> Current(w, read.value)
    case Chosen(branch, read, _) =>
      branch != Create ==>
        && read.Some? && Current(w, read.value)
        && (branch == Take ==> Unheld(read.value, w.clock))
        && (branch == Renew ==>
              read.value.holder == Some(c.id) && read.value.renewed.Some? && read.value.duration.Some?)
    case Stamped(branch, read, write) =>
      && write.holder == Some(c.id) && write.renewed.Some? && write.duration.Some? && TimesOrdered(write, w.clock)
      && (branch != Create ==>
            && read.Some? && Current(w, read.value) && write.version == read.value.version
            && (read.value.renewed.Some? ==> read.value.renewed.value <= write.renewed.value)
            && (branch == Take ==> Unheld(read.value, w.clock))
            && (branch == Renew ==> read.value.holder == Some(c.id) && write == read.value.(renewed := write.renewed)))
    case Releasing(read) => read.Some? && Current(w, read.value) && read.value.holder == Some(c.id)
  }

  predicate Live(h: Hold, clock: int) {
    clock <= h.Expiry()
  }

  /** A live hold is backed by the stored record: same holder, not expiring earlier. */
  ghost predicate Backed(w: World, id: Identity) {
    id in w.holds && Live(w.holds[id], w.clock) ==>
      && w.lease.Some? && w.lease.value.holder == Some(id)
      && w.lease.value.renewed.Some? && w.lease.value.duration.Some?
      && w.holds[id].Expiry() <= w.lease.value.renewed.value + w.lease.value.duration.value * SECOND
  }

  /** Of two holds, the one stored first had expired when the other was stored. */
  ghost predicate Ordered(w: World, i: Identity, j: Identity) {
    i in w.holds && j in w.holds && i != j ==>
      && w.holds[i].version != w.holds[j].version
      && (w.holds[i].version < w.holds[j].version ==> w.holds[i].Expiry() < w.holds[j].at)
  }

  ghost predicate Stored(w: World, h: Hold) {
    && h.renewed <= h.at <= w.clock
    && w.lease.Some? && h.version <= w.lease.value.version
  }

  ghost predicate Inv(w: World) {
    && (w.lease.Some? ==> TimesOrdered(w.lease.value, w.clock))
    && (forall c :: c in w.phases ==> PhaseOk(w, c, w.phases[c]))
    && (forall i :: i in w.holds ==> Stored(w, w.holds[i]))
    && (forall i :: i in w.holds ==> Backed(w, i))
    && (forall i, j :: i in w.holds && j in w.holds ==> Ordered(w, i, j))
  }

  /** Any lease may exist beforehand, with times that lie in the past and in order; nobody is active. */
  ghost predicate Init(w: World) {
    && (w.lease.Some? ==> TimesOrdered(w.lease.value, w.clock))
    && (forall c :: c in w.phases ==> w.phases[c] == Idle)
    && w.holds == map[]
  }

  lemma TickKeepsInv(w: World, d: nat)
    requires Inv(w)
    ensures Inv(w.(clock := w.clock + d))
  {
    var v := w.(clock := w.clock + d);
    forall c | c in v.phases ensures PhaseOk(v, c, v.phases[c]) {
      assert PhaseOk(w, c, w.phases[c]);
    }
    forall i | i in v.holds ensures Backed(v, i) {
      assert Backed(w, i);
    }
    forall i, j | i in v.holds && j in v.holds ensures Ordered(v, i, j) {
      assert Ordered(w, i, j);
    }
  }

  /** A client moving on without touching the lease keeps the invariant. */
  lemma MoveKeepsInv(w: World, c: Client, p: Phase)
    requires Inv(w) && PhaseOk(w, c, p)
    ensures Inv(w.To(c, p))
  {
    var v := w.To(c, p);
    forall d | d in v.phases ensures PhaseOk(v, d, v.phases[d]) {
      if d != c { assert PhaseOk(w, d, w.phases[d]); }
    }
    forall i | i in v.holds ensures Backed(v, i) {
      assert Backed(w, i);
    }
    forall i, j | i in v.holds && j in v.holds ensures Ordered(v, i, j) {
      assert Ordered(w, i, j);
    }
  }

  lemma StampKeepsInv(w: World, c: Client, pause: nat)
    requires Inv(w)
    ensures Inv(Apply(w, Stamp(c, pause)))
  {
    var p := w.Phase(c);
    if p.Chosen? && (p.branch == Create || p.read.Some?) {
      TickKeepsInv(w, pause);
      var v := w.(clock := w.clock + pause);
      assert PhaseOk(v, c, p);
      MicroBetween(w.clock, v.clock);
      if p.branch != Create && p.read.value.renewed.Some? {
        MicroBetween(p.read.value.renewed.value, v.clock);
      }
      if p.branch == Renew && p.read.value.acquired.Some? {
        assert p.read.value.acquired.value <= p.read.value.renewed.value;
      }
      MoveKeepsInv(v, c, Stamped(p.branch, p.read, Stamping(p.branch, p.read, c.id, p.ttl, w.clock, v.clock)));
    }
  }

  /** A write changes the version, so it leaves every other client's reading merely out of date. */
  lemma PutKeepsPhases(w: World, write: Record)
    requires Inv(w)
    ensures forall c :: c in w.phases ==> PhaseOk(Put(w, write), c, w.phases[c])
  {
    forall c | c in w.phases ensures PhaseOk(Put(w, write), c, w.phases[c]) {
      assert PhaseOk(w, c, w.phases[c]);
    }
  }

  /** A hold that is live while another identity writes to the lease would contradict what that writer read. */
  lemma WriterExcludesOthers(w: World, c: Client, i: Identity)
    requires Inv(w) && w.Phase(c).Stamped? && Accepts(w, w.Phase(c).branch, w.Phase(c).write)
    requires i in w.holds && i != c.id
    ensures !Live(w.holds[i], w.clock)
  {
    assert Backed(w, i);
    assert PhaseOk(w, c, w.phases[c]);
  }

  lemma WriteKeepsHolds(w: World, c: Client, v: World)
    requires Inv(w) && w.Phase(c).Stamped? && Accepts(w, w.Phase(c).branch, w.Phase(c).write)
    requires w.Phase(c).write.renewed.Some? && w.Phase(c).write.duration.Some?
    requires v.clock == w.clock && v.lease == Put(w, w.Phase(c).write).lease
    requires v.holds == w.holds || v.holds == w.holds[c.id := HoldOf(v.lease.value, w.clock)]
    ensures forall i :: i in v.holds ==> Backed(v, i)
    ensures forall i, j :: i in v.holds && j in v.holds ==> Ordered(v, i, j)
  {
    var write := w.Phase(c).write;
    assert PhaseOk(w, c, w.phases[c]);
    forall i | i in v.holds ensures Backed(v, i) {
      if i != c.id {
        WriterExcludesOthers(w, c, i);
      } else if v.holds == w.holds {
        assert Backed(w, i);
      }
    }
    forall i, j | i in v.holds && j in v.holds ensures Ordered(v, i, j) {
      if i in w.holds && j in w.holds { assert Ordered(w, i, j); }
      if i in w.holds && i != c.id { WriterExcludesOthers(w, c, i); }
      if j in w.holds && j != c.id { WriterExcludesOthers(w, c, j); }
    }
  }

  /** A write that is stored, whether its client learns of it or not. */
  lemma StoredWriteKeepsInv(w: World, c: Client, reply: Reply)
    requires Inv(w) && w.Phase(c).Stamped? && reply != Refused && Accepts(w, w.Phase(c).branch, w.Phase(c).write)
    ensures Inv(Apply(w, Write(c, reply)))
  {
    var p := w.Phase(c);
    var v := Apply(w, Write(c, reply));
    assert PhaseOk(w, c, p);
    PutKeepsPhases(w, p.write);
    WriteKeepsHolds(w, c, v);
    forall d | d in v.phases ensures PhaseOk(v, d, v.phases[d]) {
      if d != c {
        assert PhaseOk(Put(w, p.write), d, w.phases[d]);
      }
    }
  }

  lemma WriteKeepsInv(w: World, c: Client, reply: Reply)
    requires Inv(w)
    ensures Inv(Apply(w, Write(c, reply)))
  {
    var p := w.Phase(c);
    if p.Stamped? {
      assert PhaseOk(w, c, p);
      if reply == Refused || !Accepts(w, p.branch, p.write) {
        MoveKeepsInv(w, c, Idle);
      } else {
        StoredWriteKeepsInv(w, c, reply);
      }
    }
  }

  lemma ReleaseKeepsInv(w: World, c: Client, reply: Reply)
    requires Inv(w)
    ensures Inv(Apply(w, WriteRelease(c, reply)))
  {
    var p := w.Phase(c);
    if p.Releasing? {
      assert PhaseOk(w, c, p);
      if reply == Refused || !Accepts(w, Take, p.read.value) {
        MoveKeepsInv(w, c, Idle);
      } else {
        var write := p.read.value.(holder := Some(""));
        var v := Apply(w, WriteRelease(c, reply));
        PutKeepsPhases(w, write);
        forall d | d in v.phases ensures PhaseOk(v, d, v.phases[d]) {
          if d != c { assert PhaseOk(Put(w, write), d, w.phases[d]); }
        }
        forall i | i in v.holds ensures Backed(v, i) {
          assert Backed(w, i);
        }
        forall i, j | i in v.holds && j in v.holds ensures Ordered(v, i, j) {
          assert Ordered(w, i, j);
        }
      }
    }
  }

  lemma StepKeepsInv(w: World, s: Step)
    requires Inv(w)
    ensures Inv(Apply(w, s))
  {
    match s
    case Tick(d) => TickKeepsInv(w, d);
    case Stamp(c, pause) => StampKeepsInv(w, c, pause);
    case Write(c, reply) => WriteKeepsInv(w, c, reply);
    case WriteRelease(c, reply) => ReleaseKeepsInv(w, c, reply);
    case Choose(c) =>
      var p := w.Phase(c);
      if p.Fetched? {
        assert PhaseOk(w, c, p);
        MoveKeepsInv(w, c, Apply(w, s).Phase(c));
      }
    case Get(c, _, _) =>
      if w.Phase(c) == Idle { MoveKeepsInv(w, c, Apply(w, s).Phase(c)); }
    case Finish(c) =>
      if w.Phase(c) == Renewing { MoveKeepsInv(w, c, Idle); }
    case GetForRelease(c, fails) =>
      if w.Phase(c) == Idle { MoveKeepsInv(w, c, Apply(w, s).Phase(c)); }
  }

  lemma {:induction false} RunKeepsInv(w: World, steps: seq<Step>)
    requires Inv(w)
    ensures Inv(Exec(w, steps))
  {
    if |steps| > 0 {
      RunKeepsInv(w, steps[..|steps| - 1]);
      StepKeepsInv(Exec(w, steps[..|steps| - 1]), steps[|steps| - 1]);
    }
  }

  // -------------------------------------------------------------- what follows

  function Attempt(c: Client, ttl: int): seq<Step> {
    [Get(c, ttl, false), Choose(c), Stamp(c, 0), Write(c, Done)]
  }

  lemma ExecFour(w: World, a: Step, b: Step, c: Step, d: Step)
    ensures Exec(w, [a, b, c, d]) == Apply(Apply(Apply(Apply(w, a), b), c), d)
  {
    assert [] + [a] == [a] && [a] + [b] == [a, b] && [a, b] + [c] == [a, b, c] && [a, b, c] + [d] == [a, b, c, d];
    ExecSnoc(w, [], a);
    ExecSnoc(w, [a], b);
    ExecSnoc(w, [a, b], c);
    ExecSnoc(w, [a, b, c], d);
  }

  /** What was read names another holder, and a clock reading of `now` is not past its expiry. */
  predicate HeldByOther(read: Option<Record>, now: int, id: string) {
    && read.Some? && read.value.holder.Some? && read.value.holder.value != "" && read.value.holder.value != id
    && read.value.renewed.Some? && read.value.duration.Some?
    && now <= read.value.renewed.value + read.value.duration.value * SECOND
  }

  /** What was read names the caller, unexpired. */
  predicate OwnAndLive(read: Option<Record>, now: int, id: string) {
    && read.Some? && read.value.holder == Some(id)
    && read.value.renewed.Some? && read.value.duration.Some?
    && now <= read.value.renewed.value + read.value.duration.value * SECOND
  }

  /** What an attempt stores: its own live lease with a new renew time, else a lease from scratch for `ttl` seconds. */
  function StoredBy(read: Option<Record>, now: int, id: string, ttl: int, first: int, second: int, version: nat)
    : Record
  {
    if OwnAndLive(read, now, id) then read.value.(renewed := Some(Micro(second)), version := version)
    else
      var acquired := if read.None? then Micro(first) else Micro(second);
      Record(Some(id), Some(acquired), Some(Micro(second)), Some(ttl), version)
  }

  lemma BranchFields(read: Option<Record>, id: Identity, now: int)
    ensures BranchFor(read, id, now).None? <==> HeldByOther(read, now, id)
    ensures BranchFor(read, id, now) == Some(Renew) <==> OwnAndLive(read, now, id)
    ensures BranchFor(read, id, now) == Some(Create) <==> read.None?
  {
  }

  lemma StampingStores(read: Option<Record>, id: Identity, ttl: int, now: int, first: int, second: int, version: nat)
    requires BranchFor(read, id, now).Some?
    ensures Stamping(BranchFor(read, id, now).value, read, id, ttl, first, second).(version := version)
            == StoredBy(read, now, id, ttl, first, second, version)
  {
    BranchFields(read, id, now);
  }

  lemma AttemptWrites(w: World, c: Client, read: Option<Record>, ttl: int, branch: Branch)
    requires w.Phase(c) == Fetched(read, ttl) && BranchFor(read, c.id, w.clock) == Some(branch) && w.lease == read
    ensures var v := Apply(Apply(Apply(w, Choose(c)), Stamp(c, 0)), Write(c, Done));
            && v.Phase(c) == Renewing
            && v.lease == Put(w, Stamping(branch, read, c.id, ttl, w.clock, w.clock)).lease
  {
    var v2 := Apply(w, Choose(c));
    assert v2 == w.To(c, Chosen(branch, read, ttl));
    var v3 := Apply(v2, Stamp(c, 0));
    assert v3 == v2.To(c, Stamped(branch, read, Stamping(branch, read, c.id, ttl, w.clock, w.clock)));
  }

  lemma AttemptGivesUp(w: World, c: Client, read: Option<Record>, ttl: int)
    requires w.Phase(c) == Fetched(read, ttl) && BranchFor(read, c.id, w.clock) == None
    ensures var v := Apply(Apply(Apply(w, Choose(c)), Stamp(c, 0)), Write(c, Done));
            v.Phase(c) == Idle && v.lease == w.lease && v.holds == w.holds
  {
    assert Apply(w, Choose(c)) == w.To(c, Idle);
  }

  /**
   * Left alone, an attempt succeeds exactly when the lease does not name another, unexpired holder; a live lease of
   * the caller's own is renewed as it is, any other is replaced by one for the duration asked for.
   */
  lemma AttemptAlone(w: World, c: Client, ttl: int)
    requires w.Phase(c) == Idle
    ensures var v := Exec(w, Attempt(c, ttl)); var held := HeldByOther(w.lease, w.clock, c.id);
            && (v.Phase(c) == Renewing <==> !held)
            && (held ==> v.lease == w.lease && v.holds == w.holds)
            && (!held ==>
                  v.lease == Some(StoredBy(w.lease, w.clock, c.id, ttl, w.clock, w.clock,
                                           if w.lease.Some? then w.lease.value.version + 1 else 1)))
  {
    ExecFour(w, Get(c, ttl, false), Choose(c), Stamp(c, 0), Write(c, Done));
    var read := w.To(c, Fetched(w.lease, ttl));
    assert Apply(w, Get(c, ttl, false)) == read;
    var b := BranchFor(w.lease, c.id, w.clock);
    BranchFields(w.lease, c.id, w.clock);
    if b.Some? {
      AttemptWrites(read, c, w.lease, ttl, b.value);
      var version := if w.lease.Some? then w.lease.value.version + 1 else 1;
      StampingStores(w.lease, c.id, ttl, w.clock, w.clock, w.clock, version);
    } else {
      AttemptGivesUp(read, c, w.lease, ttl);
    }
  }

  /** No two identities are both inside a hold they have not released, in any run. */
  lemma MutualExclusion(w: World, steps: seq<Step>, i: Identity, j: Identity)
    requires Init(w) && i != j
    ensures var v := Exec(w, steps);
            !(i in v.holds && j in v.holds && Live(v.holds[i], v.clock) && Live(v.holds[j], v.clock))
  {
    RunKeepsInv(w, steps);
    var v := Exec(w, steps);
    if i in v.holds && j in v.holds {
      assert Ordered(v, i, j);
    }
  }

  /** Only the identity named in the lease can clear it, however old its reading. */
  lemma ReleaseClearsOnlyOwnLease(w: World, steps: seq<Step>, c: Client, reply: Reply)
    requires Init(w)
    ensures var v := Exec(w, steps);
            Apply(v, WriteRelease(c, reply)).lease != v.lease ==>
              && v.lease.Some? && v.lease.value.holder == Some(c.id)
              && Apply(v, WriteRelease(c, reply)).lease ==
                   Some(v.lease.value.(holder := Some(""), version := v.lease.value.version + 1))
  {
    RunKeepsInv(w, steps);
    var v := Exec(w, steps);
    if v.Phase(c).Releasing? {
      assert PhaseOk(v, c, v.phases[c]);
    }
  }

  ghost predicate Forward(before: Option<Record>, after: Option<Record>) {
    before.Some? ==>
      && after.Some?
      && before.value.version <= after.value.version
      && (before.value.renewed.Some? ==>
            after.value.renewed.Some? && before.value.renewed.value <= after.value.renewed.value)
  }

  lemma StepForward(w: World, s: Step)
    requires Inv(w)
    ensures Forward(w.lease, Apply(w, s).lease)
  {
    if s.Write? && w.Phase(s.client).Stamped? {
      assert PhaseOk(w, s.client, w.phases[s.client]);
    } else if s.WriteRelease? && w.Phase(s.client).Releasing? {
      assert PhaseOk(w, s.client, w.phases[s.client]);
    }
  }

  /** The stored renew time never goes back, and the acquire time never passes it. */
  lemma {:induction false} StoredTimesAdvance(w: World, a: seq<Step>, b: seq<Step>)
    requires Init(w)
    ensures Forward(Exec(w, a).lease, Exec(w, a + b).lease)
    ensures var r := Exec(w, a).lease;
            r.Some? && r.value.acquired.Some? && r.value.renewed.Some? ==>
              r.value.acquired.value <= r.value.renewed.value
  {
    RunKeepsInv(w, a);
    if |b| == 0 {
      assert a + b == a;
    } else {
      var front := b[..|b| - 1];
      StoredTimesAdvance(w, a, front);
      assert (a + b)[..|a + b| - 1] == a + front;
      RunKeepsInv(w, a + front);
      StepForward(Exec(w, a + front), b[|b| - 1]);
    }
  }

  // ------------------------------------------------- renewals run under the lease

  /** One client per identity, as when each resource locks under its own name. */
  predicate SingleThreaded(steps: seq<Step>) {
    forall s :: s in steps && !s.Tick? ==> s.client.thread == 0
  }

  ghost predicate RenewersHold(w: World) {
    forall c :: c in w.phases && w.phases[c] == Renewing ==> c.thread == 0 && c.id in w.holds
  }

  lemma {:induction false} RenewersKeepHold(w: World, steps: seq<Step>)
    requires Init(w) && SingleThreaded(steps)
    ensures RenewersHold(Exec(w, steps))
  {
    if |steps| > 0 {
      RenewersKeepHold(w, steps[..|steps| - 1]);
      var v := Exec(w, steps[..|steps| - 1]);
      var s := steps[|steps| - 1];
      assert s in steps;
      forall c | c in Apply(v, s).phases && Apply(v, s).phases[c] == Renewing
        ensures c.thread == 0 && c.id in Apply(v, s).holds
      {
        if s.WriteRelease? && v.Phase(s.client).Releasing? {
          assert c != s.client;
        }
      }
    }
  }

  /**
   * Two resources renew at once only if the one whose lease was stored first has outlived it,
   * and it had outlived it already when the other's was stored.
   */
  lemma OverlapOnlyAfterExpiry(w: World, steps: seq<Step>, c: Client, d: Client)
    requires Init(w) && SingleThreaded(steps) && c.id != d.id
    requires Exec(w, steps).Phase(c) == Renewing && Exec(w, steps).Phase(d) == Renewing
    ensures var v := Exec(w, steps);
            && c.id in v.holds && d.id in v.holds
            && v.holds[c.id].version != v.holds[d.id].version
            && (v.holds[c.id].version < v.holds[d.id].version ==> v.holds[c.id].Expiry() < v.holds[d.id].at <= v.clock)
  {
    RenewersKeepHold(w, steps);
    RunKeepsInv(w, steps);
    var v := Exec(w, steps);
    assert Ordered(v, c.id, d.id);
  }

  predicate Lasting(r: Option<Record>, ttl: int) {
    r.Some? && r.value.duration.Some? ==> r.value.duration.value == ttl
  }

  predicate PhaseLasts(p: Phase, ttl: int) {
    match p
    case Fetched(read, t) => Lasting(read, ttl) && t == ttl
    case Chosen(_, read, t) => Lasting(read, ttl) && t == ttl
    case Stamped(_, _, write) => Lasting(Some(write), ttl)
    case Releasing(read) => Lasting(read, ttl)
    case _ => true
  }

  ghost predicate AllLast(w: World, ttl: int) {
    && Lasting(w.lease, ttl)
    && (forall i :: i in w.holds ==> w.holds[i].duration == ttl)
    && (forall c :: c in w.phases ==> PhaseLasts(w.phases[c], ttl))
  }

  lemma StepLasts(w: World, s: Step, ttl: int)
    requires AllLast(w, ttl)
    requires s.Get? ==> s.ttl == ttl
    ensures AllLast(Apply(w, s), ttl)
  {
    if !s.Tick? {
      var p := w.Phase(s.client);
      var v := Apply(w, s);
      assert PhaseLasts(p, ttl);
      assert PhaseLasts(v.Phase(s.client), ttl);
    }
  }

  /** When every attempt asks for the same duration, every hold lasts that long. */
  lemma {:induction false} HoldsLast(w: World, steps: seq<Step>, ttl: int)
    requires Init(w) && Lasting(w.lease, ttl)
    requires forall s :: s in steps && s.Get? ==> s.ttl == ttl
    ensures AllLast(Exec(w, steps), ttl)
  {
    if |steps| > 0 {
      HoldsLast(w, steps[..|steps| - 1], ttl);
      assert steps[|steps| - 1] in steps;
      StepLasts(Exec(w, steps[..|steps| - 1]), steps[|steps| - 1], ttl);
    }
  }
}
