/** Orderer organizations under the update loops: exactly the wanted endpoints, and a second pass that settles. */
module OrdererOrgs {
  import opened Wrappers
  import opened HostPort
  import opened ChannelConfig
  import opened ChannelUpdate

  /** All endpoints are well formed. */
  predicate Parses(es: seq<string>) {
    forall e :: e in es ==> Parse(e).Ok?
  }

  /** All endpoints are well formed and name a host without colons, so their stored form can be read back. */
  predicate Storable(es: seq<string>) {
    forall e :: e in es ==> Parse(e).Ok? && ':' !in Parse(e).value.host
  }

  function Stored(e: string): string
    requires Parse(e).Ok?
  {
    Print(Parse(e).value)
  }

  function StoredForms(es: seq<string>): set<string>
    requires Parses(es)
  {
    set e | e in es :: Stored(e)
  }

  function Except(es: seq<string>, gone: set<string>): seq<string> {
    if |es| == 0 then [] else (if es[0] in gone then [] else [es[0]]) + Except(es[1..], gone)
  }

  /** What the removal loop cannot remove: endpoints not written the way the configuration prints them. */
  function Leftover(es: seq<string>): seq<string>
    requires Parses(es)
  {
    Except(es, StoredForms(es))
  }

  lemma {:induction false} ExceptMembers(es: seq<string>, gone: set<string>)
    ensures forall e :: e in Except(es, gone) <==> e in es && e !in gone
  {
    if |es| > 0 { ExceptMembers(es[1..], gone); }
  }

  lemma {:induction false} ExceptAppend(a: seq<string>, b: seq<string>, gone: set<string>)
    ensures Except(a + b, gone) == Except(a, gone) + Except(b, gone)
  {
    if |a| == 0 {
      assert a + b == b;
    } else {
      assert (a + b)[1..] == a[1..] + b;
      ExceptAppend(a[1..], b, gone);
    }
  }

  lemma {:induction false} ExceptNone(es: seq<string>, gone: set<string>)
    requires forall e :: e in es ==> e !in gone
    ensures Except(es, gone) == es
  {
    if |es| > 0 { ExceptNone(es[1..], gone); }
  }

  lemma {:induction false} ExceptAll(es: seq<string>, gone: set<string>)
    requires forall e :: e in es ==> e in gone
    ensures Except(es, gone) == []
  {
    if |es| > 0 { ExceptAll(es[1..], gone); }
  }

  lemma {:induction false} ExceptOneMore(es: seq<string>, gone: set<string>, x: string)
    ensures Without(Except(es, gone), x) == Except(es, gone + {x})
  {
    if |es| > 0 {
      var head := if es[0] in gone then [] else [es[0]];
      WithoutAppend(head, Except(es[1..], gone), x);
      assert Without(head, x) == if head == [x] then [] else head;
      ExceptOneMore(es[1..], gone, x);
    }
  }

  lemma {:induction false} RemoveShape(cur: seq<string>, doomed: seq<string>)
    ensures RemoveEndpoints(cur, doomed).Ok? <==> Parses(doomed)
    ensures Parses(doomed) ==> RemoveEndpoints(cur, doomed).value == Except(cur, StoredForms(doomed))
  {
    if |doomed| == 0 {
      assert StoredForms(doomed) == {};
      ExceptNone(cur, {});
    } else {
      var front := doomed[..|doomed| - 1];
      var last := doomed[|doomed| - 1];
      assert doomed == front + [last];
      RemoveShape(cur, front);
      assert Parses(doomed) <==> Parses(front) && Parse(last).Ok?;
      if Parses(doomed) {
        assert StoredForms(doomed) == StoredForms(front) + {Stored(last)};
        ExceptOneMore(cur, StoredForms(front), Stored(last));
      }
    }
  }

  /** The endpoints an organization ends with when it starts with none. */
  function Fresh(es: seq<string>): seq<string> {
    var r := AddEndpoints([], es);
    if r.Ok? then r.value else []
  }

  lemma {:induction false} FreshMembers(es: seq<string>, e: string)
    requires Storable(es)
    ensures AddEndpoints([], es).Ok?
    ensures e in Fresh(es) ==> Canonical(e)
    ensures e in Fresh(es) <==> exists w :: w in es && Stored(w) == e
  {
    if |es| > 0 {
      var front := es[..|es| - 1];
      var last := es[|es| - 1];
      assert es == front + [last];
      FreshMembers(front, e);
      PrintedIsCanonical(last);
      assert Fresh(es) == With(Fresh(front), Stored(last));
      assert forall w :: w in es <==> w in front || w == last;
    }
  }

  lemma WithOnTop(base: seq<string>, more: seq<string>, x: string)
    requires x !in base
    ensures With(base + more, x) == base + With(more, x)
  {
    assert base + more + [x] == base + (more + [x]);
  }

  lemma {:induction false} AddOnTop(base: seq<string>, es: seq<string>)
    requires Storable(es)
    requires forall e :: e in base ==> !Canonical(e)
    ensures AddEndpoints([], es).Ok? && AddEndpoints(base, es) == Ok(base + Fresh(es))
  {
    if |es| == 0 {
      assert base + [] == base;
    } else {
      var front := es[..|es| - 1];
      var last := es[|es| - 1];
      assert es == front + [last];
      AddOnTop(base, front);
      PrintedIsCanonical(last);
      WithOnTop(base, Fresh(front), Stored(last));
    }
  }

  lemma AddShape(base: seq<string>, es: seq<string>)
    requires Storable(es)
    requires forall e :: e in base ==> !Canonical(e)
    ensures AddEndpoints([], es).Ok? && AddEndpoints(base, es) == Ok(base + Fresh(es))
    ensures forall e :: e in Fresh(es) ==> Canonical(e)
    ensures forall e :: e in Fresh(es) <==> exists w :: w in es && Stored(w) == e
  {
    AddOnTop(base, es);
    forall e ensures e in Fresh(es) ==> Canonical(e)
             ensures e in Fresh(es) <==> exists w :: w in es && Stored(w) == e {
      FreshMembers(es, e);
    }
  }

  ghost predicate NoRepeats(es: seq<string>) {
    forall i, j :: 0 <= i < j < |es| ==> es[i] != es[j]
  }

  lemma {:induction false} ExceptNoRepeats(es: seq<string>, gone: set<string>)
    requires NoRepeats(es)
    ensures NoRepeats(Except(es, gone))
  {
    if |es| > 0 {
      ExceptNoRepeats(es[1..], gone);
      ExceptMembers(es[1..], gone);
    }
  }

  lemma {:induction false} AddNoRepeats(cur: seq<string>, es: seq<string>)
    requires NoRepeats(cur) && AddEndpoints(cur, es).Ok?
    ensures NoRepeats(AddEndpoints(cur, es).value)
  {
    if |es| > 0 {
      AddNoRepeats(cur, es[..|es| - 1]);
    }
  }

  /** Endpoints that are not repeated are not repeated after a refresh, whatever the spec repeats. */
  lemma EndpointsNotRepeated(o: Organization, w: Organization)
    requires Refresh(o, w).Ok? && NoRepeats(o.endpoints)
    ensures NoRepeats(Refresh(o, w).value.endpoints)
  {
    RemoveShape(o.endpoints, o.endpoints);
    ExceptNoRepeats(o.endpoints, StoredForms(o.endpoints));
    AddNoRepeats(RemoveEndpoints(o.endpoints, o.endpoints).value, w.endpoints);
  }

  lemma LeftoverShape(es: seq<string>)
    requires Parses(es)
    ensures forall e :: e in Leftover(es) ==> e in es && !Canonical(e)
    ensures (forall e :: e in es ==> Canonical(e)) ==> Leftover(es) == []
  {
    ExceptMembers(es, StoredForms(es));
    forall e | e in es ensures Canonical(e) ==> e in StoredForms(es) {
      if Canonical(e) { assert Stored(e) == e; }
    }
    if forall e :: e in es ==> Canonical(e) { ExceptAll(es, StoredForms(es)); }
  }

  /** A refresh replaces every endpoint the configuration printed itself, and the revocation list; nothing else. */
  lemma RefreshShape(o: Organization, w: Organization)
    requires Parses(o.endpoints) && Storable(w.endpoints)
    ensures Refresh(o, w) ==
              Ok(o.(endpoints := Leftover(o.endpoints) + Fresh(w.endpoints),
                    msp := o.msp.(revocations := w.msp.revocations)))
    ensures Parses(Leftover(o.endpoints) + Fresh(w.endpoints))
  {
    RemoveShape(o.endpoints, o.endpoints);
    LeftoverShape(o.endpoints);
    AddShape(Leftover(o.endpoints), w.endpoints);
  }

  /** What could not be removed before cannot be removed later; what was added in stored form can. */
  lemma LeftoverStable(es: seq<string>, added: seq<string>)
    requires Parses(es) && forall e :: e in added ==> Canonical(e)
    ensures Parses(Leftover(es) + added)
    ensures Leftover(Leftover(es) + added) == Leftover(es)
  {
    var kept := Leftover(es);
    LeftoverShape(es);
    ExceptMembers(es, StoredForms(es));
    var mid := kept + added;
    var gone := StoredForms(mid);
    ExceptAppend(kept, added, gone);
    forall e | e in gone ensures e in StoredForms(es) || Canonical(e) {
      var d :| d in mid && Stored(d) == e;
      if d in kept { assert d in es; }
    }
    forall e | e in kept ensures e !in gone {
    }
    ExceptNone(kept, gone);
    forall e | e in added ensures e in gone {
      assert Stored(e) == e && e in mid;
    }
    ExceptAll(added, gone);
  }

  /** What a later refresh leaves does not depend on an earlier one. */
  lemma RefreshAbsorbs(o: Organization, v: Organization, w: Organization)
    requires Parses(o.endpoints) && Storable(v.endpoints) && Storable(w.endpoints)
    ensures Refresh(o, v).Ok? && Parses(Refresh(o, v).value.endpoints)
    ensures Refresh(Refresh(o, v).value, w) == Refresh(o, w)
  {
    RefreshShape(o, v);
    RefreshShape(o, w);
    AddShape([], v.endpoints);
    LeftoverStable(o.endpoints, Fresh(v.endpoints));
    RefreshShape(Refresh(o, v).value, w);
  }

  // ----------------------------------------------------------- all organizations

  ghost predicate AllStorable(wants: seq<Organization>) {
    forall w :: w in wants ==> Storable(w.endpoints)
  }

  /** The endpoints of the organizations that stay are well formed. */
  ghost predicate AllParse(orgs: Organizations, names: set<string>) {
    forall n :: n in orgs && n in names ==> Parses(orgs[n].endpoints)
  }

  lemma StorableParses(es: seq<string>)
    requires Storable(es)
    ensures Parses(es)
  {
  }

  lemma LastOfLonger(front: seq<Organization>, w: Organization, n: string)
    requires n in Names(front + [w])
    ensures LastNamed(front + [w], n) == if n == w.name then w else LastNamed(front, n)
    ensures n != w.name ==> n in Names(front)
  {
    assert (front + [w])[..|front|] == front;
    var o :| o in front + [w] && o.name == n;
  }

  /** A known organization is refreshed, an unknown one set, any other left alone. */
  ghost predicate PlacedAt(orgs: Organizations, known: set<string>, wants: seq<Organization>, result: Organizations,
                           n: string)
    requires n in result
  {
    if n !in Names(wants) then n in orgs && result[n] == orgs[n]
    else if n in known then n in orgs && Refresh(orgs[n], LastNamed(wants, n)) == Ok(result[n])
    else result[n] == LastNamed(wants, n)
  }

  lemma PlaceOne(orgs: Organizations, known: set<string>, front: seq<Organization>, w: Organization,
                 rest: Organizations)
    requires rest.Keys == orgs.Keys + Names(front)
    requires forall n :: n in rest ==> PlacedAt(orgs, known, front, rest, n)
    requires w.name in known ==> w.name in orgs && Parses(orgs[w.name].endpoints)
    requires AllStorable(front + [w])
    ensures w.name in known ==> Refresh(rest[w.name], w) == Refresh(orgs[w.name], w) && Refresh(orgs[w.name], w).Ok?
    ensures var o := if w.name in known then Refresh(orgs[w.name], w).value else w;
            var next := rest[w.name := o];
            forall n :: n in next ==> PlacedAt(orgs, known, front + [w], next, n)
  {
    assert w in front + [w];
    if w.name in known {
      RefreshShape(orgs[w.name], w);
      assert PlacedAt(orgs, known, front, rest, w.name);
      if w.name in Names(front) {
        assert LastNamed(front, w.name) in front + [w];
        RefreshAbsorbs(orgs[w.name], LastNamed(front, w.name), w);
      }
    }
    var o := if w.name in known then Refresh(orgs[w.name], w).value else w;
    var next := rest[w.name := o];
    forall n | n in next ensures PlacedAt(orgs, known, front + [w], next, n) {
      assert n in rest ==> PlacedAt(orgs, known, front, rest, n);
      assert n in Names(front) ==> n in Names(front + [w]) by {
        if n in Names(front) {
          var f :| f in front && f.name == n;
          assert f in front + [w];
        }
      }
      if n in Names(front + [w]) { LastOfLonger(front, w, n); }
    }
  }

  /** Refreshing known organizations and setting unknown ones, name by name. */
  lemma {:induction false} PlaceShape(orgs: Organizations, known: set<string>, wants: seq<Organization>)
    requires forall w :: w in wants && w.name in known ==> w.name in orgs
    requires AllStorable(wants) && AllParse(orgs, known)
    ensures PlaceOrgs(orgs, known, wants).Ok?
    ensures var r := PlaceOrgs(orgs, known, wants).value; forall n :: n in r ==> PlacedAt(orgs, known, wants, r, n)
  {
    if |wants| > 0 {
      var front := wants[..|wants| - 1];
      var w := wants[|wants| - 1];
      assert wants == front + [w];
      PlaceShape(orgs, known, front);
      PlaceOne(orgs, known, front, w, PlaceOrgs(orgs, known, front).value);
    }
  }

  ghost predicate OrgsReady(orgs: Organizations, wants: seq<Organization>) {
    AllStorable(wants) && AllParse(orgs, Names(wants))
  }

  ghost predicate UpdatedAt(orgs: Organizations, wants: seq<Organization>, after: Organizations, n: string) {
    && n in after && n in Names(wants)
    && if n in orgs then Refresh(orgs[n], LastNamed(wants, n)) == Ok(after[n]) else after[n] == LastNamed(wants, n)
  }

  lemma OrgsAfterShape(orgs: Organizations, wants: seq<Organization>)
    requires OrgsReady(orgs, wants)
    ensures OrdererOrgsAfter(orgs, wants).Ok?
    ensures var after := OrdererOrgsAfter(orgs, wants).value;
            after.Keys == Names(wants) && forall n :: n in after ==> UpdatedAt(orgs, wants, after, n)
  {
    var kept := KeepOrgs(orgs, Names(wants));
    PlaceShape(kept, orgs.Keys, wants);
    var after := OrdererOrgsAfter(orgs, wants).value;
    forall n | n in after ensures UpdatedAt(orgs, wants, after, n) {
      assert PlacedAt(kept, orgs.Keys, wants, after, n);
    }
  }

  lemma OrgsAfterParse(orgs: Organizations, wants: seq<Organization>)
    requires OrgsReady(orgs, wants)
    ensures OrdererOrgsAfter(orgs, wants).Ok? && OrgsReady(OrdererOrgsAfter(orgs, wants).value, wants)
  {
    OrgsAfterShape(orgs, wants);
    var after := OrdererOrgsAfter(orgs, wants).value;
    forall n | n in after ensures Parses(after[n].endpoints) {
      assert UpdatedAt(orgs, wants, after, n);
      if n in orgs {
        RefreshShape(orgs[n], LastNamed(wants, n));
      } else {
        StorableParses(LastNamed(wants, n).endpoints);
      }
    }
  }

  /** A kept organization ends with exactly the wanted endpoints and revocations; all else of it is untouched. */
  ghost predicate KeptExactly(o: Organization, w: Organization, after: Organization) {
    && after == o.(endpoints := after.endpoints, msp := o.msp.(revocations := w.msp.revocations))
    && forall e :: e in after.endpoints <==> exists x :: x in w.endpoints && Parse(x).Ok? && Stored(x) == e
  }

  /**
   * After one pass the names are the wanted names, a new organization is as wanted, and a kept one whose
   * endpoints are in canonical form is kept exactly.
   */
  lemma OrdererOrgsExact(orgs: Organizations, wants: seq<Organization>, n: string)
    requires OrgsReady(orgs, wants)
    ensures OrdererOrgsAfter(orgs, wants).Ok?
    ensures var after := OrdererOrgsAfter(orgs, wants).value;
            && (n in after <==> n in Names(wants))
            && (n in after && n !in orgs ==> after[n] == LastNamed(wants, n))
            && (n in after && n in orgs && (forall e :: e in orgs[n].endpoints ==> Canonical(e)) ==>
                  KeptExactly(orgs[n], LastNamed(wants, n), after[n]))
  {
    OrgsAfterShape(orgs, wants);
    var after := OrdererOrgsAfter(orgs, wants).value;
    assert n in after ==> UpdatedAt(orgs, wants, after, n);
    if n in after && n in orgs {
      RefreshShape(orgs[n], LastNamed(wants, n));
      LeftoverShape(orgs[n].endpoints);
      AddShape([], LastNamed(wants, n).endpoints);
    }
  }

  /** From here on a further pass changes nothing. */
  ghost predicate Settled(orgs: Organizations, wants: seq<Organization>) {
    OrdererOrgsAfter(orgs, wants) == Ok(orgs)
  }

  lemma PassOverPresentSettles(once: Organizations, wants: seq<Organization>)
    requires once.Keys == Names(wants) && OrgsReady(once, wants)
    ensures OrdererOrgsAfter(once, wants).Ok? && Settled(OrdererOrgsAfter(once, wants).value, wants)
  {
    OrgsAfterShape(once, wants);
    OrgsAfterParse(once, wants);
    var twice := OrdererOrgsAfter(once, wants).value;
    OrgsAfterShape(twice, wants);
    var thrice := OrdererOrgsAfter(twice, wants).value;
    forall n | n in Names(wants) ensures thrice[n] == twice[n] {
      assert UpdatedAt(once, wants, twice, n) && UpdatedAt(twice, wants, thrice, n);
      RefreshAbsorbs(once[n], LastNamed(wants, n), LastNamed(wants, n));
    }
    assert thrice.Keys == twice.Keys;
    assert thrice == twice;
  }

  /** The second pass reaches a fixpoint: newly added organizations are brought to stored form, and stay. */
  lemma OrdererOrgsSettle(orgs: Organizations, wants: seq<Organization>)
    requires OrgsReady(orgs, wants)
    ensures OrdererOrgsAfter(orgs, wants).Ok?
    ensures OrdererOrgsAfter(OrdererOrgsAfter(orgs, wants).value, wants).Ok?
    ensures Settled(OrdererOrgsAfter(OrdererOrgsAfter(orgs, wants).value, wants).value, wants)
  {
    OrgsAfterParse(orgs, wants);
    PassOverPresentSettles(OrdererOrgsAfter(orgs, wants).value, wants);
  }

  // ------------------------------------------------------------ when it gets stuck

  /** A stored form that can be read back names a host without colons. */
  lemma StoredFormReadable(e: string)
    requires Parse(e).Ok? && Parse(Stored(e)).Ok?
    ensures ':' !in Parse(e).value.host
  {
    var a := Parse(e).value;
    var s := Stored(e);
    ParsedParts(e);
    DecimalPlain(a.port);
    LastColon(a.host, Decimal(a.port));
    assert s == a.host + ":" + Decimal(a.port) && s[..|a.host|] == a.host;
    assert s[0] != '[' by {
      if |a.host| > 0 { assert s[0] == a.host[0] && a.host[0] in a.host; }
    }
  }

  lemma {:induction false} AddHolds(cur: seq<string>, es: seq<string>, x: string)
    requires AddEndpoints(cur, es).Ok?
    ensures x in cur ==> x in AddEndpoints(cur, es).value
    ensures x in es ==> Parse(x).Ok? && Stored(x) in AddEndpoints(cur, es).value
  {
    if |es| > 0 {
      var front := es[..|es| - 1];
      var last := es[|es| - 1];
      AddHolds(cur, front, x);
      assert AddEndpoints(cur, es).value == With(AddEndpoints(cur, front).value, Stored(last));
      assert x in es ==> x in front || x == last;
    }
  }

  /** A refreshed organization that can be refreshed again was given storable endpoints. */
  lemma RefreshedReadable(o: Organization, w: Organization)
    requires Refresh(o, w).Ok? && Parses(Refresh(o, w).value.endpoints)
    ensures Storable(w.endpoints)
  {
    var cleared := RemoveEndpoints(o.endpoints, o.endpoints).value;
    forall e | e in w.endpoints ensures Parse(e).Ok? && ':' !in Parse(e).value.host {
      AddHolds(cleared, w.endpoints, e);
      StoredFormReadable(e);
    }
  }

  /** A pass that goes through has read every endpoint of the organizations it kept. */
  lemma {:induction false} PlacedWereReadable(orgs: Organizations, known: set<string>, wants: seq<Organization>)
    requires forall w :: w in wants && w.name in known ==> w.name in orgs
    requires PlaceOrgs(orgs, known, wants).Ok?
    ensures forall n :: n in orgs && n !in Names(wants) ==> PlaceOrgs(orgs, known, wants).value[n] == orgs[n]
    ensures forall n :: n in Names(wants) && n in known ==> n in orgs && Parses(orgs[n].endpoints)
  {
    if |wants| > 0 {
      var front := wants[..|wants| - 1];
      var w := wants[|wants| - 1];
      assert wants == front + [w];
      PlacedWereReadable(orgs, known, front);
      if w.name in known {
        RefreshOk(PlaceOrgs(orgs, known, front).value[w.name], w);
      }
      assert Names(wants) == Names(front) + {w.name};
    }
  }

  /** A pass over organizations that are all present goes through, and its outcome can be read again. */
  ghost predicate PlacesReadable(orgs: Organizations, wants: seq<Organization>) {
    && Names(wants) <= orgs.Keys
    && PlaceOrgs(orgs, orgs.Keys, wants).Ok?
    && AllParse(PlaceOrgs(orgs, orgs.Keys, wants).value, Names(wants))
  }

  lemma PlacedReadableFront(orgs: Organizations, front: seq<Organization>, w: Organization)
    requires PlacesReadable(orgs, front + [w])
    ensures PlacesReadable(orgs, front) && Storable(w.endpoints)
  {
    assert (front + [w])[..|front|] == front;
    assert Names(front + [w]) == Names(front) + {w.name};
    RefreshedAmongReadable(PlaceOrgs(orgs, orgs.Keys, front).value, w, Names(front));
  }

  /** Such a pass was given storable endpoints. */
  lemma {:induction false} PlacedReadable(orgs: Organizations, wants: seq<Organization>)
    requires PlacesReadable(orgs, wants)
    ensures AllStorable(wants)
  {
    if |wants| > 0 {
      var front := wants[..|wants| - 1];
      assert wants == front + [wants[|wants| - 1]];
      PlacedReadableFront(orgs, front, wants[|wants| - 1]);
      PlacedReadable(orgs, front);
    }
  }

  lemma RefreshedAmongReadable(rest: Organizations, w: Organization, names: set<string>)
    requires w.name in rest && Refresh(rest[w.name], w).Ok?
    requires AllParse(rest[w.name := Refresh(rest[w.name], w).value], names + {w.name})
    ensures AllParse(rest, names) && Storable(w.endpoints)
  {
    var all := rest[w.name := Refresh(rest[w.name], w).value];
    RefreshOk(rest[w.name], w);
    forall n | n in rest && n in names ensures Parses(rest[n].endpoints) {
      if n != w.name { assert all[n] == rest[n]; }
    }
    assert all[w.name] == Refresh(rest[w.name], w).value;
    RefreshedReadable(rest[w.name], w);
  }

  /** A pass that goes through leaves kept organizations' old endpoints read. */
  lemma PassReads(orgs: Organizations, wants: seq<Organization>)
    requires OrdererOrgsAfter(orgs, wants).Ok?
    ensures AllParse(orgs, Names(wants))
  {
    PlacedWereReadable(KeepOrgs(orgs, Names(wants)), orgs.Keys, wants);
  }

  /** Two passes going through over organizations that are all present leave a configuration that no pass changes. */
  lemma PassesThatWorkSettle(once: Organizations, wants: seq<Organization>)
    requires once.Keys == Names(wants) && OrdererOrgsAfter(once, wants).Ok?
    requires OrdererOrgsAfter(OrdererOrgsAfter(once, wants).value, wants).Ok?
    ensures OrgsReady(once, wants) && Settled(OrdererOrgsAfter(once, wants).value, wants)
  {
    var twice := OrdererOrgsAfter(once, wants).value;
    PassReads(once, wants);
    PassReads(twice, wants);
    assert KeepOrgs(once, Names(wants)) == once;
    PlacedReadable(once, wants);
    PassOverPresentSettles(once, wants);
  }

  predicate ThreePassesWork(orgs: Organizations, wants: seq<Organization>) {
    && OrdererOrgsAfter(orgs, wants).Ok?
    && var once := OrdererOrgsAfter(orgs, wants).value;
       OrdererOrgsAfter(once, wants).Ok? && OrdererOrgsAfter(OrdererOrgsAfter(once, wants).value, wants).Ok?
  }

  /**
   * Passes keep going through exactly when the kept endpoints can be read and the wanted ones read back once
   * stored.
   */
  lemma OrgsReadyIff(orgs: Organizations, wants: seq<Organization>)
    ensures OrgsReady(orgs, wants) <==> ThreePassesWork(orgs, wants)
  {
    if OrgsReady(orgs, wants) {
      OrgsAfterParse(orgs, wants);
      OrgsAfterParse(OrdererOrgsAfter(orgs, wants).value, wants);
      OrgsAfterParse(OrdererOrgsAfter(OrdererOrgsAfter(orgs, wants).value, wants).value, wants);
    }
    if ThreePassesWork(orgs, wants) {
      PassReads(orgs, wants);
      PassesThatWorkSettle(OrdererOrgsAfter(orgs, wants).value, wants);
    }
  }

  const BRACKETED := "[::1]:1"

  lemma BracketedSplits()
    ensures SplitHostPort(BRACKETED) == Ok(("::1", "1"))
  {
    var e := BRACKETED;
    assert e[5] == ':' && e[6..] == "1" && ':' !in e[6..];
    LastIndexUnique(e, ':', 5);
    assert FirstIndexOf(e, ']') == 4;
    assert e[1..4] == "::1" && e[5..] == ":1";
    assert e[1..] == "::1]:1";
  }

  lemma BracketedParses()
    ensures Parse(BRACKETED) == Ok(Address("::1", 1))
  {
    BracketedSplits();
    AtoiDecimal(1);
    assert Decimal(1) == "1";
  }

  /** A new organization with a bracketed endpoint: the first two passes go through, the third cannot. */
  lemma BracketedEndpointGetsStuck(w: Organization)
    requires w.endpoints == [BRACKETED]
    ensures OrdererOrgsAfter(map[], [w]).Ok? && !ThreePassesWork(map[], [w])
    ensures OrdererOrgsAfter(OrdererOrgsAfter(map[], [w]).value, [w]).Ok?
  {
    BracketedParses();
    assert BRACKETED in w.endpoints && w in [w];
    OrgsReadyIff(map[], [w]);
    ReadableOrganizationPassesTwice(w);
  }

  lemma ReadableOrganizationPassesTwice(w: Organization)
    requires Parses(w.endpoints)
    ensures OrdererOrgsAfter(map[], [w]).Ok?
    ensures OrdererOrgsAfter(OrdererOrgsAfter(map[], [w]).value, [w]).Ok?
  {
    assert DistinctNames([w]);
    OrdererOrgsFailOnlyOnBadEndpoints(map[], [w]);
    var once := OrdererOrgsAfter(map[], [w]).value;
    assert w in [w] && [w][..0] == [];
    assert once == map[w.name := w];
    OrdererOrgsFailOnlyOnBadEndpoints(once, [w]);
  }

  // ------------------------------------------------------------------ failures

  lemma {:induction false} AddOk(cur: seq<string>, es: seq<string>)
    ensures AddEndpoints(cur, es).Ok? <==> Parses(es)
  {
    if |es| > 0 {
      var front := es[..|es| - 1];
      assert es == front + [es[|es| - 1]];
      AddOk(cur, front);
      assert Parses(es) <==> Parses(front) && Parse(es[|es| - 1]).Ok?;
    }
  }

  lemma RefreshOk(o: Organization, w: Organization)
    ensures Refresh(o, w).Ok? <==> Parses(o.endpoints) && Parses(w.endpoints)
  {
    RemoveShape(o.endpoints, o.endpoints);
    if Parses(o.endpoints) { AddOk(RemoveEndpoints(o.endpoints, o.endpoints).value, w.endpoints); }
  }

  ghost predicate DistinctNames(wants: seq<Organization>) {
    forall i, j :: 0 <= i < j < |wants| ==> wants[i].name != wants[j].name
  }

  lemma {:induction false} PlaceOk(orgs: Organizations, known: set<string>, wants: seq<Organization>)
    requires forall w :: w in wants && w.name in known ==> w.name in orgs
    requires DistinctNames(wants)
    ensures PlaceOrgs(orgs, known, wants).Ok? <==>
              forall w :: w in wants && w.name in known ==> Parses(orgs[w.name].endpoints) && Parses(w.endpoints)
    ensures PlaceOrgs(orgs, known, wants).Ok? ==>
              forall n :: n in orgs && n !in Names(wants) ==> PlaceOrgs(orgs, known, wants).value[n] == orgs[n]
  {
    if |wants| > 0 {
      var front := wants[..|wants| - 1];
      var w := wants[|wants| - 1];
      assert wants == front + [w];
      PlaceOk(orgs, known, front);
      assert w.name !in Names(front);
      if w.name in known { RefreshOk(orgs[w.name], w); }
    }
  }

  /**
   * With distinct wanted names the update goes through exactly when every endpoint of an organization present
   * on both sides is well formed; those of a new organization are stored unread.
   */
  lemma OrdererOrgsFailOnlyOnBadEndpoints(orgs: Organizations, wants: seq<Organization>)
    requires DistinctNames(wants)
    ensures OrdererOrgsAfter(orgs, wants).Ok? <==>
              forall w :: w in wants && w.name in orgs ==> Parses(orgs[w.name].endpoints) && Parses(w.endpoints)
  {
    PlaceOk(KeepOrgs(orgs, Names(wants)), orgs.Keys, wants);
  }
}
