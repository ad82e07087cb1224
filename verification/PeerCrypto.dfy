/**
 * The certificates and keys of a peer whose credential store is a Fabric CA: how `GetConfig` picks them and how
 * `updateCerts` renews them (controllers/peer/peer_controller.go, 657-670, 1183-1406).
 */
module PeerCrypto {
  import opened Wrappers

  /** A private key, and the public key that goes with it. */
  type Key = int

  datatype Cert = Cert(key: Key, serial: nat, notAfter: int)

  datatype Material = Material(cert: Cert, key: Key)

  predicate Matched(m: Material) {
    m.cert.key == m.key
  }

  /** The CA's answer to a signing request. */
  datatype Reply =
    | Certified(serial: nat, notAfter: int)
    | AuthenticationFailure
    | OtherFailure

  /** A user's enrolment: whether reading what is stored for it works, the key it would make, and the CA's answers. */
  datatype Ask = Ask(found: bool, newKey: Key, now: int, enroll: Reply, reenroll: Reply)

  datatype Kind = Tls | Ops | Sign

  datatype Secrets = Secrets(tls: Option<Material>, ops: Option<Material>, sign: Option<Material>)

  function At(st: Secrets, k: Kind): Option<Material> {
    match k
    case Tls => st.tls
    case Ops => st.ops
    case Sign => st.sign
  }

  /** `External` names a secret to read instead; `Err` when it cannot be read. */
  datatype Spec = Spec(
    tlsExternal: Option<Result<Material, string>>, signExternal: Option<Result<Material, string>>, reenroll: bool)

  datatype Asks = Asks(tls: Ask, ops: Ask, sign: Ask)

  function AskFor(asks: Asks, k: Kind): Ask {
    match k
    case Tls => asks.tls
    case Ops => asks.ops
    case Sign => asks.sign
  }

  /**
   * `getExistingTLSCrypto` and its kin: what is stored, unless a secret of the pair or of its root certificate
   * cannot be fetched or parsed. The caller sees no difference between that and nothing being stored.
   */
  function Existing(st: Secrets, asks: Asks, k: Kind): Option<Material> {
    if AskFor(asks, k).found then At(st, k) else None
  }

  /** `certs.EnrollUser`: a new key, and the CA's certificate for it. */
  function EnrollUser(ask: Ask): (r: Result<Material, string>)
    ensures r.Ok? <==> ask.enroll.Certified?
    ensures r.Ok? ==> Matched(r.value) && r.value.key == ask.newKey
  {
    match ask.enroll
    case Certified(serial, notAfter) => Ok(Material(Cert(ask.newKey, serial, notAfter), ask.newKey))
    case AuthenticationFailure => Err("Authentication failure")
    case OtherFailure => Err("enrollment failed")
  }

  datatype ReenrollError = BadCredentials | Other(text: string)

  /** `certs.ReenrollUser`: a certificate for the key already held. */
  function ReenrollUser(ask: Ask, key: Key): (r: Result<Material, ReenrollError>)
    ensures r.Ok? <==> ask.reenroll.Certified?
    ensures r.Ok? ==> Matched(r.value) && r.value.key == key
  {
    match ask.reenroll
    case Certified(serial, notAfter) => Ok(Material(Cert(key, serial, notAfter), key))
    case AuthenticationFailure => Err(BadCredentials)
    case OtherFailure => Err(Other("reenrollment failed"))
  }

  // -------------------------------------------------------------------- what is picked

  /** What the chart gets for one of the TLS and signing pairs. */
  function Picked(external: Option<Result<Material, string>>, existing: Option<Material>, refresh: bool,
                  reenroll: bool, ask: Ask)
    : Result<Material, string>
  {
    if external.Some? then external.value
    else if !refresh then (if existing.Some? then Ok(existing.value) else EnrollUser(ask))
    else if existing.None? then Err("failed to get existing crypto material")
    else if existing.value.cert.notAfter < ask.now || !reenroll || ask.reenroll.AuthenticationFailure? then
      EnrollUser(ask)
    else if ask.reenroll.OtherFailure? then Err("failed to reenroll crypto material")
    else Ok(ReenrollUser(ask, existing.value.key).value)
  }

  /** The operations pair is never external, and enrolled anew on every refresh. */
  function PickedOps(existing: Option<Material>, refresh: bool, ask: Ask): Result<Material, string> {
    if !refresh && existing.Some? then Ok(existing.value) else EnrollUser(ask)
  }

  function PickedFor(spec: Spec, st: Secrets, refresh: bool, asks: Asks, k: Kind): Result<Material, string> {
    match k
    case Tls => Picked(spec.tlsExternal, Existing(st, asks, k), refresh, spec.reenroll, asks.tls)
    case Ops => PickedOps(Existing(st, asks, k), refresh, asks.ops)
    case Sign => Picked(spec.signExternal, Existing(st, asks, k), refresh, spec.reenroll, asks.sign)
  }

  // ---------------------------------------------------------------------- one step

  /** A call to `GetConfig` and the chart upgrade after it; `rendered` and `upgraded` are how the rest of each went. */
  datatype Step = Step(spec: Spec, refresh: bool, asks: Asks, rendered: bool, upgraded: bool)

  predicate Completes(st: Secrets, s: Step) {
    s.rendered && s.upgraded && forall k: Kind :: PickedFor(s.spec, st, s.refresh, s.asks, k).Ok?
  }

  function After(st: Secrets, s: Step): Secrets {
    if Completes(st, s) then
      Secrets(Some(PickedFor(s.spec, st, s.refresh, s.asks, Tls).value),
              Some(PickedFor(s.spec, st, s.refresh, s.asks, Ops).value),
              Some(PickedFor(s.spec, st, s.refresh, s.asks, Sign).value))
    else st
  }

  /** The pair is the operator's own, not read from a secret the spec names. */
  predicate Own(spec: Spec, k: Kind) {
    match k
    case Tls => spec.tlsExternal.None?
    case Ops => true
    case Sign => spec.signExternal.None?
  }

  predicate ExternalMatched(spec: Spec) {
    && (spec.tlsExternal.Some? && spec.tlsExternal.value.Ok? ==> Matched(spec.tlsExternal.value.value))
    && (spec.signExternal.Some? && spec.signExternal.value.Ok? ==> Matched(spec.signExternal.value.value))
  }

  /** Signed by the CA in answer to this request: an enrolment of the new key, or a re-enrolment of the key held. */
  predicate JustSigned(m: Material, held: Option<Material>, ask: Ask) {
    && Matched(m)
    && ((m.key == ask.newKey && ask.enroll == Certified(m.cert.serial, m.cert.notAfter))
        || (held.Some? && m.key == held.value.key && ask.reenroll == Certified(m.cert.serial, m.cert.notAfter)))
  }

  /** A renewal that goes through puts newly signed pairs in all places that are the operator's own. */
  lemma RenewedAreJustSigned(st: Secrets, s: Step, k: Kind)
    requires s.refresh && Own(s.spec, k) && Completes(st, s)
    ensures At(After(st, s), k).Some? && JustSigned(At(After(st, s), k).value, At(st, k), AskFor(s.asks, k))
  {
    assert PickedFor(s.spec, st, s.refresh, s.asks, k).Ok?;
    match k case Tls => case Ops => case Sign =>
  }

  /** A pair the spec takes from elsewhere: what that secret holds, and no way on when it cannot be read. */
  lemma ExternalTaken(st: Secrets, s: Step)
    ensures s.spec.tlsExternal.Some? && Completes(st, s) ==> s.spec.tlsExternal == Some(Ok(After(st, s).tls.value))
    ensures s.spec.signExternal.Some? && Completes(st, s) ==> s.spec.signExternal == Some(Ok(After(st, s).sign.value))
    ensures s.spec.tlsExternal.Some? && s.spec.tlsExternal.value.Err? ==> !Completes(st, s)
    ensures s.spec.signExternal.Some? && s.spec.signExternal.value.Err? ==> !Completes(st, s)
  {
    assert PickedFor(s.spec, st, s.refresh, s.asks, Tls).Ok? <==> Picked(
      s.spec.tlsExternal, Existing(st, s.asks, Tls), s.refresh, s.spec.reenroll, s.asks.tls).Ok?;
    assert PickedFor(s.spec, st, s.refresh, s.asks, Sign).Ok? <==> Picked(
      s.spec.signExternal, Existing(st, s.asks, Sign), s.refresh, s.spec.reenroll, s.asks.sign).Ok?;
  }

  /** The CA answers the enrolment or re-enrolment that the state of the pair calls for. */
  predicate Answered(st: Secrets, s: Step, k: Kind) {
    var ask := AskFor(s.asks, k);
    var held := ask.found && At(st, k).Some?;
    if !s.refresh then held || ask.enroll.Certified?
    else if k == Ops then ask.enroll.Certified?
    else
      held &&
      if s.spec.reenroll && ask.now <= At(st, k).value.cert.notAfter && !ask.reenroll.AuthenticationFailure? then
        ask.reenroll.Certified?
      else ask.enroll.Certified?
  }

  /** With nothing external a step goes through exactly when chart and CA do their part for all three pairs. */
  lemma CompletesIff(st: Secrets, s: Step)
    requires forall k :: Own(s.spec, k)
    ensures Completes(st, s) <==>
              s.rendered && s.upgraded && Answered(st, s, Tls) && Answered(st, s, Ops) && Answered(st, s, Sign)
  {
    assert Own(s.spec, Tls) && Own(s.spec, Sign);
    forall k: Kind ensures PickedFor(s.spec, st, s.refresh, s.asks, k).Ok? <==> Answered(st, s, k) {
      match k case Tls => case Ops => case Sign =>
    }
    if s.rendered && s.upgraded && Answered(st, s, Tls) && Answered(st, s, Ops) && Answered(st, s, Sign) {
      forall k: Kind ensures PickedFor(s.spec, st, s.refresh, s.asks, k).Ok? {
        match k case Tls => case Ops => case Sign =>
      }
    }
  }

  /** Renewed on the key already held: only TLS and signing pairs, unexpired, with re-enrolment on and accepted. */
  predicate KeepsKey(st: Secrets, s: Step, k: Kind) {
    && k != Ops && s.spec.reenroll
    && At(st, k).Some? && AskFor(s.asks, k).now <= At(st, k).value.cert.notAfter
    && !AskFor(s.asks, k).reenroll.AuthenticationFailure?
  }

  /** The steps that put a newly made key in place of the stored one: a renewal, or a failed read outside one. */
  predicate EnrollsAnew(st: Secrets, s: Step, k: Kind) {
    Completes(st, s) && if s.refresh then !KeepsKey(st, s, k) else !AskFor(s.asks, k).found
  }

  lemma StepKey(st: Secrets, s: Step, k: Kind)
    requires Own(s.spec, k) && At(st, k).Some?
    ensures At(After(st, s), k).Some?
    ensures At(After(st, s), k).value.key == if EnrollsAnew(st, s, k) then AskFor(s.asks, k).newKey
              else At(st, k).value.key
  {
    if Completes(st, s) {
      assert PickedFor(s.spec, st, s.refresh, s.asks, k).Ok?;
      match k case Tls => case Ops => case Sign =>
    }
  }

  /** Outside a renewal a stored pair is kept exactly when it is read, or the step does not go through. */
  lemma PlainUpgradeKeepsIff(st: Secrets, s: Step, k: Kind)
    requires !s.refresh && Own(s.spec, k) && At(st, k).Some?
    requires AskFor(s.asks, k).newKey != At(st, k).value.key
    ensures At(After(st, s), k) == At(st, k) <==> AskFor(s.asks, k).found || !Completes(st, s)
  {
    if Completes(st, s) {
      assert PickedFor(s.spec, st, s.refresh, s.asks, k).Ok?;
      match k case Tls => case Ops => case Sign =>
    }
  }

  /** An upgrade outside a renewal in which everything works but the reading of one pair. */
  function FailedRead(spec: Spec, asks: Asks, k: Kind): Step {
    var fails := Asks(asks.tls.(found := k != Tls), asks.ops.(found := k != Ops), asks.sign.(found := k != Sign));
    Step(spec, false, fails, true, true)
  }

  /** One failed read replaces a healthy stored key, and leaves the other two pairs alone. */
  lemma FailedReadReplacesKey(st: Secrets, spec: Spec, asks: Asks, k: Kind, other: Kind)
    requires forall j :: Own(spec, j) && At(st, j).Some? && AskFor(asks, j).enroll.Certified?
    requires other != k
    ensures At(After(st, FailedRead(spec, asks, k)), k).Some?
    ensures At(After(st, FailedRead(spec, asks, k)), k).value.key == AskFor(asks, k).newKey
    ensures At(After(st, FailedRead(spec, asks, k)), other) == At(st, other)
  {
    var s := FailedRead(spec, asks, k);
    forall j: Kind ensures PickedFor(spec, st, false, s.asks, j).Ok? {
      assert Own(spec, j) && At(st, j).Some? && AskFor(asks, j).enroll.Certified?;
      match j case Tls => case Ops => case Sign =>
    }
    assert Own(spec, k) && Own(spec, other) && At(st, k).Some? && At(st, other).Some?;
    match other case Tls => case Ops => case Sign =>
  }

  // ---------------------------------------------------------------------- whole runs

  function Run(st: Secrets, steps: seq<Step>): Secrets {
    if |steps| == 0 then st else After(Run(st, steps[..|steps| - 1]), steps[|steps| - 1])
  }

  predicate AllMatched(st: Secrets) {
    forall k :: At(st, k).Some? ==> Matched(At(st, k).value)
  }

  /** Certificate and key belong together after any run of installs, upgrades and renewals. */
  lemma {:induction false} RunKeepsPairsMatched(st: Secrets, steps: seq<Step>)
    requires AllMatched(st) && forall s :: s in steps ==> ExternalMatched(s.spec)
    ensures AllMatched(Run(st, steps))
  {
    if |steps| > 0 {
      var n := |steps| - 1;
      RunKeepsPairsMatched(st, steps[..n]);
      StepKeepsPairsMatched(Run(st, steps[..n]), steps[n]);
    }
  }

  lemma StepKeepsPairsMatched(st: Secrets, s: Step)
    requires AllMatched(st) && ExternalMatched(s.spec)
    ensures AllMatched(After(st, s))
  {
    if Completes(st, s) {
      forall k: Kind | At(After(st, s), k).Some? ensures Matched(At(After(st, s), k).value) {
        assert At(st, k).Some? ==> Matched(At(st, k).value);
        assert PickedFor(s.spec, st, s.refresh, s.asks, k).Ok?;
        match k case Tls => case Ops => case Sign =>
      }
    }
  }

  predicate EnrollsAnewAt(st: Secrets, steps: seq<Step>, i: nat, k: Kind)
    requires i < |steps|
  {
    EnrollsAnew(Run(st, steps[..i]), steps[i], k)
  }

  /** A key that no later enrolment makes again survives a run exactly when no step of it enrols anew. */
  lemma {:induction false} RunKeepsKeyIff(st: Secrets, steps: seq<Step>, k: Kind)
    requires At(st, k).Some?
    requires forall s :: s in steps ==> Own(s.spec, k) && AskFor(s.asks, k).newKey != At(st, k).value.key
    ensures At(Run(st, steps), k).Some?
    ensures At(Run(st, steps), k).value.key == At(st, k).value.key
            <==> forall i :: 0 <= i < |steps| ==> !EnrollsAnewAt(st, steps, i, k)
  {
    if |steps| > 0 {
      var n := |steps| - 1;
      var front := steps[..n];
      RunKeepsKeyIff(st, front, k);
      forall i | 0 <= i < n ensures EnrollsAnewAt(st, front, i, k) == EnrollsAnewAt(st, steps, i, k) {
        assert front[..i] == steps[..i];
      }
      assert steps[n] in steps;
      LastStepDecides(st, steps, k);
    }
  }

  lemma LastStepDecides(st: Secrets, steps: seq<Step>, k: Kind)
    requires |steps| > 0 && At(Run(st, steps[..|steps| - 1]), k).Some?
    requires Own(steps[|steps| - 1].spec, k)
    ensures At(Run(st, steps), k).Some?
    ensures At(Run(st, steps), k).value.key
            == if EnrollsAnewAt(st, steps, |steps| - 1, k) then AskFor(steps[|steps| - 1].asks, k).newKey
               else At(Run(st, steps[..|steps| - 1]), k).value.key
  {
    StepKey(Run(st, steps[..|steps| - 1]), steps[|steps| - 1], k);
  }

  /**
   * With the CA answering and the chart upgrading, a renewal goes through exactly when TLS and signing pairs are
   * read.
   */
  lemma WorkingCaRenewsIff(st: Secrets, s: Step)
    requires s.refresh && s.rendered && s.upgraded
    requires forall k ::
               Own(s.spec, k) && AskFor(s.asks, k).enroll.Certified? && !AskFor(s.asks, k).reenroll.OtherFailure?
    ensures Completes(st, s) <==> Existing(st, s.asks, Tls).Some? && Existing(st, s.asks, Sign).Some?
  {
    assert Own(s.spec, Tls) && Own(s.spec, Sign) && AskFor(s.asks, Ops).enroll.Certified?;
    if Existing(st, s.asks, Tls).Some? && Existing(st, s.asks, Sign).Some? {
      forall k: Kind ensures PickedFor(s.spec, st, s.refresh, s.asks, k).Ok? {
        assert AskFor(s.asks, k).enroll.Certified? && !AskFor(s.asks, k).reenroll.OtherFailure?;
        match k case Tls => case Ops => case Sign =>
      }
    } else {
      assert PickedFor(s.spec, st, true, s.asks, Tls).Err? || PickedFor(s.spec, st, true, s.asks, Sign).Err?;
    }
  }

  // ---------------------------------------------------------------- the code itself

  class Peer {
    var stored: Secrets

    constructor (stored: Secrets)
      ensures this.stored == stored
    {
      this.stored := stored;
    }

    method PickRefreshed(existing: Option<Material>, reenroll: bool, ask: Ask) returns (r: Result<Material, string>)
      ensures r == Picked(None, existing, true, reenroll, ask)
    {
      if existing.None? {
        return Err("failed to get existing crypto material");
      }
      var pair := existing.value;
      if pair.cert.notAfter < ask.now {
        r := EnrollUser(ask);
      } else if reenroll {
        var renewed := ReenrollUser(ask, pair.key);
        var authenticationFailure := false;
        if renewed.Err? {
          if renewed.error.BadCredentials? {
            authenticationFailure := true;
          } else {
            return Err("failed to reenroll crypto material");
          }
        }
        if authenticationFailure {
          r := EnrollUser(ask);
        } else {
          r := Ok(renewed.value);
        }
      } else {
        r := EnrollUser(ask);
      }
    }

    method GetExisting(asks: Asks, k: Kind) returns (r: Option<Material>)
      ensures r == Existing(stored, asks, k)
    {
      if !AskFor(asks, k).found {
        return None;
      }
      return At(stored, k);
    }

    method GetConfig(spec: Spec, refreshCerts: bool, asks: Asks, rendered: bool) returns (r: Result<Secrets, string>)
      ensures r.Ok? <==> rendered && forall k: Kind :: PickedFor(spec, stored, refreshCerts, asks, k).Ok?
      ensures r.Ok? ==> forall k: Kind :: At(r.value, k) == Some(PickedFor(spec, stored, refreshCerts, asks, k).value)
    {
      var tls: Result<Material, string>;
      if spec.tlsExternal.Some? {
        tls := spec.tlsExternal.value;
      } else {
        var existing := GetExisting(asks, Tls);
        if refreshCerts {
          tls := PickRefreshed(existing, spec.reenroll, asks.tls);
        } else if existing.Some? {
          tls := Ok(existing.value);
        } else {
          tls := EnrollUser(asks.tls);
        }
      }
      assert tls == PickedFor(spec, stored, refreshCerts, asks, Tls);
      if tls.Err? {
        return Err(tls.error);
      }
      var ops: Result<Material, string>;
      if refreshCerts {
        ops := EnrollUser(asks.ops);
      } else {
        var existing := GetExisting(asks, Ops);
        if existing.Some? {
          ops := Ok(existing.value);
        } else {
          ops := EnrollUser(asks.ops);
        }
      }
      assert ops == PickedFor(spec, stored, refreshCerts, asks, Ops);
      if ops.Err? {
        return Err(ops.error);
      }
      var sign: Result<Material, string>;
      if spec.signExternal.Some? {
        sign := spec.signExternal.value;
      } else {
        var existing := GetExisting(asks, Sign);
        if refreshCerts {
          sign := PickRefreshed(existing, spec.reenroll, asks.sign);
        } else if existing.Some? {
          sign := Ok(existing.value);
        } else {
          sign := EnrollUser(asks.sign);
        }
      }
      assert sign == PickedFor(spec, stored, refreshCerts, asks, Sign);
      if sign.Err? {
        return Err(sign.error);
      }
      if !rendered {
        return Err("failed to build the chart values");
      }
      r := Ok(Secrets(Some(tls.value), Some(ops.value), Some(sign.value)));
      forall k: Kind ensures At(r.value, k) == Some(PickedFor(spec, stored, refreshCerts, asks, k).value)
                             && PickedFor(spec, stored, refreshCerts, asks, k).Ok? {
        match k case Tls => case Ops => case Sign =>
      }
    }

    /** `GetConfig` and the chart upgrade, which stores the three pairs together or not at all. */
    method Upgrade(s: Step) returns (ok: bool)
      modifies this
      ensures stored == After(old(stored), s)
      ensures ok <==> Completes(old(stored), s)
    {
      var config := GetConfig(s.spec, s.refresh, s.asks, s.rendered);
      if config.Err? || !s.upgraded {
        return false;
      }
      assert At(config.value, Tls).Some? && At(config.value, Ops).Some? && At(config.value, Sign).Some?;
      stored := config.value;
      return true;
    }

    /** An upgrade outside a renewal. While an earlier one is `pending` the values are computed and not applied. */
    method PlainUpgrade(job: Step, pending: bool) returns (ok: bool)
      modifies this
      ensures stored == if pending then old(stored) else After(old(stored), job.(refresh := false))
      ensures ok <==> Completes(old(stored), job.(refresh := false, upgraded := pending || job.upgraded))
    {
      if pending {
        var config := GetConfig(job.spec, false, job.asks, job.rendered);
        return config.Ok?;
      }
      ok := Upgrade(job.(refresh := false));
    }

    /** All or nothing: newly signed pairs in all places that are the operator's own, or no change at all. */
    method UpdateCerts(job: Step) returns (ok: bool)
      modifies this
      ensures var s := job.(refresh := true);
              && stored == After(old(stored), s)
              && (ok <==> Completes(old(stored), s))
              && (!ok ==> stored == old(stored))
              && (ok ==> forall k :: Own(s.spec, k) ==>
                    At(stored, k).Some? && JustSigned(At(stored, k).value, At(old(stored), k), AskFor(s.asks, k)))
    {
      ghost var before := stored;
      var s := job.(refresh := true);
      ok := Upgrade(s);
      if ok {
        forall k | Own(s.spec, k)
          ensures At(stored, k).Some? && JustSigned(At(stored, k).value, At(before, k), AskFor(s.asks, k))
        {
          RenewedAreJustSigned(before, s, k);
        }
      }
    }
  }
}
