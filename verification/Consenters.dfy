/** The etcdraft consenter loops of the main channel reconciler (mainchannel_controller.go, 1475-1527). */
module Consenters {
  import opened Wrappers
  import opened ChannelConfig

  predicate SameAddress(a: Consenter, b: Consenter) {
    a.host == b.host && a.port == b.port
  }

  /** The first consenter of `cs` at the address of `c`. */
  function AtAddress(cs: seq<Consenter>, c: Consenter): (r: Option<Consenter>)
    ensures r.Some? ==> r.value in cs && SameAddress(r.value, c)
    ensures r.None? ==> forall d :: d in cs ==> !SameAddress(d, c)
  {
    if |cs| == 0 then None
    else if SameAddress(cs[0], c) then Some(cs[0])
    else AtAddress(cs[1..], c)
  }

  /** One turn of the first loop: drop a consenter without a wanted address, swap one whose certificates differ. */
  function Examine(cur: seq<Consenter>, o: Consenter, want: seq<Consenter>): seq<Consenter> {
    match AtAddress(want, o)
    case None => Without(cur, o)
    case Some(m) => if m == o then cur else With(Without(cur, o), m)
  }

  function SweepOld(cur: seq<Consenter>, olds: seq<Consenter>, want: seq<Consenter>): seq<Consenter> {
    if |olds| == 0 then cur
    else Examine(SweepOld(cur, olds[..|olds| - 1], want), olds[|olds| - 1], want)
  }

  /** Second loop: add the wanted consenters whose address was not there before. */
  function SweepNew(cur: seq<Consenter>, wants: seq<Consenter>, olds: seq<Consenter>): seq<Consenter> {
    if |wants| == 0 then cur
    else
      var rest := SweepNew(cur, wants[..|wants| - 1], olds);
      var w := wants[|wants| - 1];
      if AtAddress(olds, w).None? then With(rest, w) else rest
  }

  function ConsentersAfter(prior: seq<Consenter>, want: seq<Consenter>): seq<Consenter> {
    SweepNew(SweepOld(prior, prior, want), want, prior)
  }

  // ---------------------------------------------------------------- exactness

  ghost predicate AddressUnique(cs: seq<Consenter>) {
    forall a, b :: a in cs && b in cs && SameAddress(a, b) ==> a == b
  }

  /** Wanted exactly as it is. */
  predicate Kept(c: Consenter, want: seq<Consenter>) {
    AtAddress(want, c) == Some(c)
  }

  /** The consenters an update leaves alone, in their order. */
  function Unchanged(cs: seq<Consenter>, want: seq<Consenter>): seq<Consenter> {
    Survivors(cs, Elements(cs), want)
  }

  /** Those of `cs` that are kept or not yet examined. */
  function Survivors(cs: seq<Consenter>, done: set<Consenter>, want: seq<Consenter>): seq<Consenter> {
    if |cs| == 0 then []
    else (if cs[0] !in done || Kept(cs[0], want) then [cs[0]] else []) + Survivors(cs[1..], done, want)
  }

  lemma {:induction false} SurvivorMembers(cs: seq<Consenter>, done: set<Consenter>, want: seq<Consenter>)
    ensures forall c :: c in Survivors(cs, done, want) <==> c in cs && (c !in done || Kept(c, want))
  {
    if |cs| > 0 {
      SurvivorMembers(cs[1..], done, want);
    }
  }

  lemma {:induction false} AllSurvive(cs: seq<Consenter>, done: set<Consenter>, want: seq<Consenter>)
    requires forall c :: c in cs ==> c !in done || Kept(c, want)
    ensures Survivors(cs, done, want) == cs
  {
    if |cs| > 0 {
      AllSurvive(cs[1..], done, want);
    }
  }

  lemma {:induction false} SurvivorsAfterOne(cs: seq<Consenter>, done: set<Consenter>, want: seq<Consenter>,
                                             o: Consenter)
    ensures Survivors(cs, done + {o}, want) ==
              if Kept(o, want) then Survivors(cs, done, want) else Without(Survivors(cs, done, want), o)
  {
    if |cs| > 0 {
      SurvivorsAfterOne(cs[1..], done, want, o);
      var head := if cs[0] !in done || Kept(cs[0], want) then [cs[0]] else [];
      WithoutAppend(head, Survivors(cs[1..], done, want), o);
      assert Without(head, o) == if head == [o] then [] else head;
    }
  }

  /** The wanted replacements appended by one turn. */
  lemma ExamineShape(kept: seq<Consenter>, before: seq<Consenter>, o: Consenter, want: seq<Consenter>)
    returns (extra: seq<Consenter>)
    requires forall e :: e in before ==> Kept(e, want)
    ensures Examine(kept + before, o, want) == (if Kept(o, want) then kept else Without(kept, o)) + extra
    ensures forall e :: e in extra ==> e in before || AtAddress(want, o) == Some(e)
  {
    extra := before;
    if !Kept(o, want) {
      WithoutAppend(kept, before, o);
      WithoutAbsent(before, o);
      WithoutMembers(kept + before, o);
      var m := AtAddress(want, o);
      if m.Some? && m.value !in Without(kept + before, o) {
        extra := before + [m.value];
      }
    }
  }

  lemma TurnShape(prior: seq<Consenter>, done: set<Consenter>, want: seq<Consenter>, o: Consenter,
                  before: seq<Consenter>)
    returns (extra: seq<Consenter>)
    requires forall e :: e in before ==> Kept(e, want)
    ensures Examine(Survivors(prior, done, want) + before, o, want) == Survivors(prior, done + {o}, want) + extra
    ensures forall e :: e in extra ==> Kept(e, want)
  {
    SurvivorsAfterOne(prior, done, want, o);
    extra := ExamineShape(Survivors(prior, done, want), before, o, want);
    FirstAtAddress(want, o);
  }

  lemma SweepOldNext(prior: seq<Consenter>, front: seq<Consenter>, o: Consenter, want: seq<Consenter>,
                     before: seq<Consenter>)
    returns (extra: seq<Consenter>)
    requires SweepOld(prior, front, want) == Survivors(prior, Elements(front), want) + before
    requires forall e :: e in before ==> Kept(e, want)
    ensures SweepOld(prior, front + [o], want) == Survivors(prior, Elements(front + [o]), want) + extra
    ensures forall e :: e in extra ==> Kept(e, want)
  {
    assert (front + [o])[..|front|] == front;
    assert Elements(front + [o]) == Elements(front) + {o};
    extra := TurnShape(prior, Elements(front), want, o, before);
  }

  /** The first loop keeps the survivors in order and appends only wanted replacements. */
  lemma {:induction false} SweepOldShape(prior: seq<Consenter>, olds: seq<Consenter>, want: seq<Consenter>)
    returns (extra: seq<Consenter>)
    ensures SweepOld(prior, olds, want) == Survivors(prior, Elements(olds), want) + extra
    ensures forall e :: e in extra ==> Kept(e, want)
  {
    if |olds| == 0 {
      assert Elements(olds) == {};
      AllSurvive(prior, {}, want);
      return [];
    }
    var front := olds[..|olds| - 1];
    var o := olds[|olds| - 1];
    var before := SweepOldShape(prior, front, want);
    extra := SweepOldNext(prior, front, o, want, before);
    assert olds == front + [o];
  }

  lemma ExamineHolds(cur: seq<Consenter>, o: Consenter, want: seq<Consenter>, e: Consenter)
    requires e in cur && Kept(e, want)
    ensures e in Examine(cur, o, want)
  {
    WithoutMembers(cur, o);
  }

  lemma ExaminePlaces(cur: seq<Consenter>, o: Consenter, want: seq<Consenter>)
    requires AtAddress(want, o).Some? && (Kept(o, want) ==> o in cur)
    ensures AtAddress(want, o).value in Examine(cur, o, want)
  {
  }

  /** The wanted consenter at an examined address is there afterwards. */
  lemma {:induction false} SweepOldPlaces(prior: seq<Consenter>, k: nat, want: seq<Consenter>, p: Consenter)
    requires k <= |prior| && p in prior[..k] && AtAddress(want, p).Some?
    ensures AtAddress(want, p).value in SweepOld(prior, prior[..k], want)
  {
    var o := prior[k - 1];
    var cur := SweepOld(prior, prior[..k - 1], want);
    assert prior[..k][..k - 1] == prior[..k - 1];
    assert prior[..k] == prior[..k - 1] + [o];
    if p in prior[..k - 1] {
      SweepOldPlaces(prior, k - 1, want, p);
      FirstAtAddress(want, p);
      ExamineHolds(cur, o, want, AtAddress(want, p).value);
    } else {
      var _ := SweepOldShape(prior, prior[..k - 1], want);
      SurvivorMembers(prior, Elements(prior[..k - 1]), want);
      ExaminePlaces(cur, o, want);
    }
  }

  /** Whatever is found at an address is what a search from it finds again. */
  lemma {:induction false} FirstAtAddress(cs: seq<Consenter>, c: Consenter)
    ensures AtAddress(cs, c).Some? ==> AtAddress(cs, AtAddress(cs, c).value) == AtAddress(cs, c)
  {
    if |cs| > 0 && !SameAddress(cs[0], c) {
      FirstAtAddress(cs[1..], c);
    }
  }

  lemma {:induction false} SweepNewShape(cur: seq<Consenter>, wants: seq<Consenter>, olds: seq<Consenter>)
    ensures cur <= SweepNew(cur, wants, olds)
    ensures forall c :: c in SweepNew(cur, wants, olds) <==> c in cur || (c in wants && AtAddress(olds, c).None?)
  {
    if |wants| > 0 {
      assert wants == wants[..|wants| - 1] + [wants[|wants| - 1]];
      SweepNewShape(cur, wants[..|wants| - 1], olds);
    }
  }

  lemma UniqueAtAddress(want: seq<Consenter>, c: Consenter)
    requires AddressUnique(want) && c in want
    ensures AtAddress(want, c) == Some(c)
  {
  }

  /**
   * For wanted consenters with distinct addresses, from any current list: the result holds exactly the wanted
   * consenters, and those left alone come first, in their order.
   */
  lemma ConsentersExact(prior: seq<Consenter>, want: seq<Consenter>)
    requires AddressUnique(want)
    ensures forall c :: c in ConsentersAfter(prior, want) <==> c in want
    ensures Unchanged(prior, want) <= ConsentersAfter(prior, want)
  {
    var swept := SweepOld(prior, prior, want);
    SweptMembers(prior, want);
    SweepNewShape(swept, want, prior);
    forall c | c in want ensures c in ConsentersAfter(prior, want) {
      UniqueAtAddress(want, c);
      var o := AtAddress(prior, c);
      if o.Some? {
        assert SameAddress(o.value, c) && AtAddress(want, o.value).Some?;
        assert SameAddress(AtAddress(want, o.value).value, c);
      }
    }
  }

  lemma SweptMembers(prior: seq<Consenter>, want: seq<Consenter>)
    ensures Unchanged(prior, want) <= SweepOld(prior, prior, want)
    ensures forall c :: c in SweepOld(prior, prior, want) ==> c in want
    ensures forall o :: o in prior && AtAddress(want, o).Some? ==>
              AtAddress(want, o).value in SweepOld(prior, prior, want)
  {
    var _ := SweepOldShape(prior, prior, want);
    assert prior[..|prior|] == prior;
    SurvivorMembers(prior, Elements(prior), want);
    forall o | o in prior && AtAddress(want, o).Some? ensures AtAddress(want, o).value in SweepOld(prior, prior, want) {
      SweepOldPlaces(prior, |prior|, want, o);
    }
  }

  lemma {:induction false} SweepOldIdle(cur: seq<Consenter>, olds: seq<Consenter>, want: seq<Consenter>)
    requires forall o :: o in olds ==> Kept(o, want)
    ensures SweepOld(cur, olds, want) == cur
  {
    if |olds| > 0 {
      assert olds[|olds| - 1] in olds;
      SweepOldIdle(cur, olds[..|olds| - 1], want);
    }
  }

  lemma {:induction false} SweepNewIdle(cur: seq<Consenter>, wants: seq<Consenter>, olds: seq<Consenter>)
    requires forall w :: w in wants ==> AtAddress(olds, w).Some?
    ensures SweepNew(cur, wants, olds) == cur
  {
    if |wants| > 0 {
      SweepNewIdle(cur, wants[..|wants| - 1], olds);
    }
  }

  ghost predicate NoRepeats(cs: seq<Consenter>) {
    forall i, j :: 0 <= i < j < |cs| ==> cs[i] != cs[j]
  }

  lemma {:induction false} WithoutNoRepeats(cs: seq<Consenter>, x: Consenter)
    requires NoRepeats(cs)
    ensures NoRepeats(Without(cs, x))
  {
    if |cs| > 0 {
      var tail := Without(cs[1..], x);
      WithoutNoRepeats(cs[1..], x);
      WithoutMembers(cs[1..], x);
      assert cs[0] !in cs[1..];
      assert forall j :: 0 <= j < |tail| ==> tail[j] in tail && tail[j] != cs[0];
    }
  }

  lemma {:induction false} SweepOldNoRepeats(cur: seq<Consenter>, olds: seq<Consenter>, want: seq<Consenter>)
    requires NoRepeats(cur)
    ensures NoRepeats(SweepOld(cur, olds, want))
  {
    if |olds| > 0 {
      var before := SweepOld(cur, olds[..|olds| - 1], want);
      SweepOldNoRepeats(cur, olds[..|olds| - 1], want);
      WithoutNoRepeats(before, olds[|olds| - 1]);
    }
  }

  lemma {:induction false} SweepNewNoRepeats(cur: seq<Consenter>, wants: seq<Consenter>, olds: seq<Consenter>)
    requires NoRepeats(cur)
    ensures NoRepeats(SweepNew(cur, wants, olds))
  {
    if |wants| > 0 {
      SweepNewNoRepeats(cur, wants[..|wants| - 1], olds);
    }
  }

  /** Consenters that are not repeated on the channel are not repeated after an update, whatever the spec repeats. */
  lemma ConsentersNotRepeated(prior: seq<Consenter>, want: seq<Consenter>)
    requires NoRepeats(prior)
    ensures NoRepeats(ConsentersAfter(prior, want))
  {
    SweepOldNoRepeats(prior, prior, want);
    SweepNewNoRepeats(SweepOld(prior, prior, want), want, prior);
  }

  /** A second pass finds every consenter kept and every wanted address present, so it adds and removes nothing. */
  lemma ConsentersSettle(prior: seq<Consenter>, want: seq<Consenter>)
    requires AddressUnique(want)
    ensures var now := ConsentersAfter(prior, want);
            && (forall c :: c in now ==> Kept(c, want))
            && (forall w :: w in want ==> AtAddress(now, w).Some?)
            && ConsentersAfter(now, want) == now
  {
    var now := ConsentersAfter(prior, want);
    ConsentersExact(prior, want);
    forall c | c in now ensures Kept(c, want) {
      UniqueAtAddress(want, c);
    }
    SweepOldIdle(now, now, want);
    SweepNewIdle(now, want, now);
  }
}
