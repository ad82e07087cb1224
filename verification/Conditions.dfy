/** The condition list of a resource's status (pkg/status/conditions.go). */
module Conditions {
  import opened Wrappers
  import opened Ordering

  datatype Condition = Condition(kind: string, status: string, reason: string, message: string, since: int)

  const TRUE := "True"
  const FALSE := "False"
  const UNKNOWN := "Unknown"

  // ---------------------------------------------------------------- the list

  function Kind(c: Condition): string {
    c.kind
  }

  /** The index of the first condition of this kind, or the length of the list. */
  function Find(l: seq<Condition>, kind: string): (i: nat)
    ensures i <= |l|
    ensures i < |l| ==> l[i].kind == kind
    ensures forall k :: 0 <= k < i ==> l[k].kind != kind
  {
    if |l| == 0 || l[0].kind == kind then 0 else 1 + Find(l[1..], kind)
  }

  function Replace(l: seq<Condition>, c: Condition, now: int): seq<Condition> {
    var i := Find(l, c.kind);
    if i == |l| then l + [c.(since := now)]
    else l[i := c.(since := if l[i].status == c.status then l[i].since else now)]
  }

  function Drop(l: seq<Condition>, kind: string): seq<Condition> {
    var i := Find(l, kind);
    if i == |l| then l else l[..i] + l[i + 1..]
  }

  ghost predicate Unique(l: seq<Condition>) {
    forall i, j :: 0 <= i < j < |l| ==> l[i].kind != l[j].kind
  }

  // ------------------------------------------------- the map the list stands for

  type View = map<string, Condition>

  ghost function ViewOf(l: seq<Condition>): (m: View)
    requires Unique(l)
  {
    map c | c in l :: c.kind := c
  }

  /** Set on the map: the transition time survives exactly when the status does. */
  function MapSet(m: View, c: Condition, now: int): View {
    m[c.kind := c.(since := if c.kind in m && m[c.kind].status == c.status then m[c.kind].since else now)]
  }

  lemma FindInView(l: seq<Condition>, kind: string)
    requires Unique(l)
    ensures Find(l, kind) < |l| <==> kind in ViewOf(l)
    ensures Find(l, kind) < |l| ==> ViewOf(l)[kind] == l[Find(l, kind)]
  {
    var i := Find(l, kind);
    if i < |l| {
      assert l[i] in l;
    }
  }

  ghost predicate Denotes(l: seq<Condition>, m: View) {
    && (forall k :: k in m ==> m[k].kind == k)
    && (forall c :: c in l <==> c.kind in m && m[c.kind] == c)
  }

  lemma ViewDenoted(l: seq<Condition>, m: View)
    requires Unique(l)
    ensures Denotes(l, ViewOf(l))
    ensures Denotes(l, m) ==> ViewOf(l) == m
  {
    if Denotes(l, m) {
      forall k | k in m ensures k in ViewOf(l) {
        assert m[k] in l;
      }
    }
  }

  lemma SetRefinesMap(l: seq<Condition>, c: Condition, now: int)
    requires Unique(l)
    ensures Unique(Replace(l, c, now))
    ensures ViewOf(Replace(l, c, now)) == MapSet(ViewOf(l), c, now)
  {
    FindInView(l, c.kind);
    ViewDenoted(l, ViewOf(l));
    var m := MapSet(ViewOf(l), c, now);
    forall d ensures d in Replace(l, c, now) <==> d.kind in m && m[d.kind] == d {
      ReplaceMembers(l, c, now, d);
    }
    ReplaceMembers(l, c, now, c);
    ViewDenoted(Replace(l, c, now), m);
  }

  lemma ReplaceMembers(l: seq<Condition>, c: Condition, now: int, d: Condition)
    requires Unique(l)
    ensures var i := Find(l, c.kind); var r := Replace(l, c, now);
            && Unique(r)
            && (d in r <==> (d in l && d.kind != c.kind) || d == r[i])
  {
    var i := Find(l, c.kind);
    var r := Replace(l, c, now);
    if d in l && d.kind != c.kind {
      var k :| 0 <= k < |l| && l[k] == d;
      assert r[k] == d;
    }
    assert r[i] in r;
  }

  lemma RemoveRefinesMap(l: seq<Condition>, kind: string)
    requires Unique(l)
    ensures Unique(Drop(l, kind))
    ensures ViewOf(Drop(l, kind)) == ViewOf(l) - {kind}
  {
    ViewDenoted(l, ViewOf(l));
    var m := ViewOf(l) - {kind};
    forall d ensures d in Drop(l, kind) <==> d.kind in m && m[d.kind] == d {
      DropMembers(l, kind, d);
    }
    DropUnique(l, kind);
    ViewDenoted(Drop(l, kind), m);
  }

  lemma DropUnique(l: seq<Condition>, kind: string)
    requires Unique(l)
    ensures Unique(Drop(l, kind))
  {
  }

  lemma DropMembers(l: seq<Condition>, kind: string, d: Condition)
    requires Unique(l)
    ensures d in Drop(l, kind) <==> d in l && d.kind != kind
  {
    var i := Find(l, kind);
    var r := Drop(l, kind);
    if i < |l| {
      assert forall k :: 0 <= k < |r| ==> r[k] == l[if k < i then k else k + 1];
      if d in l && d.kind != kind {
        var k :| 0 <= k < |l| && l[k] == d;
        assert r[if k < i then k else k - 1] == d;
      }
    }
  }

  /** A set keeps every condition in its place and appends a kind that is not there. */
  lemma SetKeepsPlaces(l: seq<Condition>, c: Condition, now: int)
    ensures var r := Replace(l, c, now);
            && |l| <= |r| <= |l| + 1
            && (|r| == |l| <==> exists k :: 0 <= k < |l| && l[k].kind == c.kind)
            && (forall k :: 0 <= k < |l| ==> r[k].kind == l[k].kind && (l[k].kind != c.kind ==> r[k] == l[k]))
  {
  }

  /** A remove takes out one condition of the kind, the first, and closes the gap. */
  lemma RemoveKeepsPlaces(l: seq<Condition>, kind: string)
    ensures var r := Drop(l, kind);
            if exists k :: 0 <= k < |l| && l[k].kind == kind then
              exists i :: 0 <= i < |l| && l[i].kind == kind && (forall k :: 0 <= k < i ==> l[k].kind != kind)
                          && r == l[..i] + l[i + 1..]
            else r == l
  {
    var i := Find(l, kind);
  }

  // ----------------------------------------------------------- call histories

  datatype Call = Set(condition: Condition, at: int) | Remove(kind: string)

  predicate About(call: Call, kind: string) {
    if call.Set? then call.condition.kind == kind else call.kind == kind
  }

  function Apply(l: seq<Condition>, call: Call): seq<Condition> {
    match call
    case Set(c, at) => Replace(l, c, at)
    case Remove(kind) => Drop(l, kind)
  }

  function Replay(l: seq<Condition>, calls: seq<Call>): seq<Condition> {
    if |calls| == 0 then l else Apply(Replay(l, calls[..|calls| - 1]), calls[|calls| - 1])
  }

  function MapReplay(m: View, calls: seq<Call>): View {
    if |calls| == 0 then m
    else
      var before := MapReplay(m, calls[..|calls| - 1]);
      match calls[|calls| - 1]
      case Set(c, at) => MapSet(before, c, at)
      case Remove(kind) => before - {kind}
  }

  /** Any history of set and remove keeps kinds unique and acts as on a map. */
  lemma {:induction false} HistoryRefinesMap(l: seq<Condition>, calls: seq<Call>)
    requires Unique(l)
    ensures Unique(Replay(l, calls))
    ensures ViewOf(Replay(l, calls)) == MapReplay(ViewOf(l), calls)
  {
    if |calls| > 0 {
      var before := calls[..|calls| - 1];
      HistoryRefinesMap(l, before);
      match calls[|calls| - 1]
      case Set(c, at) => SetRefinesMap(Replay(l, before), c, at);
      case Remove(kind) => RemoveRefinesMap(Replay(l, before), kind);
    }
  }

  function Recorded(l: seq<Condition>): seq<Call> {
    seq(|l|, i requires 0 <= i < |l| => Set(l[i], l[i].since))
  }

  /** Every list with unique kinds is itself a history from empty, so the theorems below apply to it. */
  lemma {:induction false} EveryListIsAHistory(l: seq<Condition>)
    requires Unique(l)
    ensures Replay([], Recorded(l)) == l
  {
    if |l| > 0 {
      var front := l[..|l| - 1];
      EveryListIsAHistory(front);
      assert Recorded(l)[..|l| - 1] == Recorded(front);
      assert l == front + [l[|l| - 1]];
    }
  }

  /** The last call about a kind. */
  ghost predicate Latest(calls: seq<Call>, kind: string, j: nat) {
    && j < |calls| && About(calls[j], kind)
    && forall k :: j < k < |calls| ==> !About(calls[k], kind)
  }

  /** Call `i` opens the latest unbroken run of same-status sets of this kind. */
  ghost predicate RunStart(calls: seq<Call>, kind: string, i: nat) {
    && i < |calls| && calls[i].Set? && calls[i].condition.kind == kind
    && (forall j :: i < j < |calls| && About(calls[j], kind)
          ==> calls[j].Set? && calls[j].condition.status == calls[i].condition.status)
    && (forall h: nat :: h < i && Latest(calls[..i], kind, h)
          ==> calls[h].Remove? || calls[h].condition.status != calls[i].condition.status)
  }

  /** A kind is present exactly when the last call about it set it, with that call's content. */
  lemma {:induction false} LatestCallDecides(calls: seq<Call>, kind: string)
    ensures kind in MapReplay(map[], calls) ==> exists j: nat :: Latest(calls, kind, j) && calls[j].Set?
    ensures forall j: nat :: Latest(calls, kind, j) ==>
              var m := MapReplay(map[], calls);
              && (calls[j].Set? <==> kind in m)
              && (calls[j].Set? ==> m[kind] == calls[j].condition.(since := m[kind].since))
  {
    if |calls| > 0 {
      var n := |calls| - 1;
      var before := calls[..n];
      LatestCallDecides(before, kind);
      if About(calls[n], kind) {
        assert forall j: nat :: Latest(calls, kind, j) ==> j == n;
        assert Latest(calls, kind, n);
      } else {
        forall j: nat ensures Latest(calls, kind, j) <==> Latest(before, kind, j) {
          assert j < n ==> calls[j] == before[j];
        }
      }
    }
  }

  lemma RunStartBefore(calls: seq<Call>, kind: string, i: nat)
    requires |calls| > 0 && i < |calls| - 1
    ensures RunStart(calls, kind, i) <==>
              && RunStart(calls[..|calls| - 1], kind, i)
              && (About(calls[|calls| - 1], kind) ==>
                    calls[|calls| - 1].Set? && calls[|calls| - 1].condition.status == calls[i].condition.status)
  {
    var before := calls[..|calls| - 1];
    assert before[..i] == calls[..i];
  }

  /** All sets since the start of the run carry its status, so the map does too. */
  lemma RunStatus(calls: seq<Call>, kind: string, i: nat)
    requires RunStart(calls, kind, i)
    ensures kind in MapReplay(map[], calls)
    ensures MapReplay(map[], calls)[kind].status == calls[i].condition.status
  {
    LatestCallDecides(calls, kind);
    var j := LastAbout(calls, kind, i);
  }

  lemma {:induction false} LastAbout(calls: seq<Call>, kind: string, i: nat) returns (j: nat)
    requires i < |calls| && About(calls[i], kind)
    ensures i <= j && Latest(calls, kind, j)
    decreases |calls| - i
  {
    if k: nat :| i < k < |calls| && About(calls[k], kind) {
      j := LastAbout(calls, kind, k);
    } else {
      j := i;
    }
  }

  /** In the map left by `calls`, the entry of `kind` dates from the call that opened its current run. */
  ghost predicate DatesFromRunStart(calls: seq<Call>, kind: string) {
    var m := MapReplay(map[], calls);
    && (kind in m <==> exists i: nat :: RunStart(calls, kind, i))
    && (forall i: nat :: RunStart(calls, kind, i) ==> kind in m && m[kind].since == calls[i].at)
  }

  lemma DatesUntouched(calls: seq<Call>, kind: string)
    requires |calls| > 0 && !About(calls[|calls| - 1], kind)
    requires DatesFromRunStart(calls[..|calls| - 1], kind)
    ensures DatesFromRunStart(calls, kind)
  {
    var before := calls[..|calls| - 1];
    forall i: nat | RunStart(calls, kind, i) ensures RunStart(before, kind, i) {
      RunStartBefore(calls, kind, i);
    }
    if i: nat :| RunStart(before, kind, i) {
      RunStartBefore(calls, kind, i);
      assert RunStart(calls, kind, i);
    }
  }

  /** A set that keeps the status opens no run: the run open before goes on. */
  lemma ContinuingSetOpensNothing(calls: seq<Call>, kind: string)
    requires |calls| > 0 && About(calls[|calls| - 1], kind) && calls[|calls| - 1].Set?
    requires kind in MapReplay(map[], calls[..|calls| - 1])
    requires MapReplay(map[], calls[..|calls| - 1])[kind].status == calls[|calls| - 1].condition.status
    ensures !RunStart(calls, kind, |calls| - 1)
  {
    var before := calls[..|calls| - 1];
    LatestCallDecides(before, kind);
    var j: nat :| Latest(before, kind, j) && before[j].Set?;
    assert calls[j] == before[j];
  }

  lemma DatesContinued(calls: seq<Call>, kind: string)
    requires |calls| > 0 && About(calls[|calls| - 1], kind) && calls[|calls| - 1].Set?
    requires DatesFromRunStart(calls[..|calls| - 1], kind)
    requires kind in MapReplay(map[], calls[..|calls| - 1])
    requires MapReplay(map[], calls[..|calls| - 1])[kind].status == calls[|calls| - 1].condition.status
    ensures DatesFromRunStart(calls, kind)
  {
    var before := calls[..|calls| - 1];
    ContinuingSetOpensNothing(calls, kind);
    forall i: nat | RunStart(calls, kind, i) ensures RunStart(before, kind, i) {
      RunStartBefore(calls, kind, i);
    }
    var i: nat :| RunStart(before, kind, i);
    RunStatus(before, kind, i);
    RunStartBefore(calls, kind, i);
    assert RunStart(calls, kind, i);
  }

  lemma DatesRestarted(calls: seq<Call>, kind: string)
    requires |calls| > 0 && About(calls[|calls| - 1], kind) && calls[|calls| - 1].Set?
    requires var m := MapReplay(map[], calls[..|calls| - 1]);
             kind in m ==> m[kind].status != calls[|calls| - 1].condition.status
    ensures DatesFromRunStart(calls, kind)
  {
    var n := |calls| - 1;
    var before := calls[..n];
    LatestCallDecides(before, kind);
    assert RunStart(calls, kind, n);
    forall i: nat | i < n ensures !RunStart(calls, kind, i) {
      RunStartBefore(calls, kind, i);
      if RunStart(before, kind, i) { RunStatus(before, kind, i); }
    }
  }

  /** In every history the transition time is that of the call that opened the current unbroken run. */
  lemma {:induction false} TransitionTimeIsRunStart(calls: seq<Call>, kind: string)
    ensures DatesFromRunStart(calls, kind)
  {
    if |calls| > 0 {
      var n := |calls| - 1;
      var m := MapReplay(map[], calls[..n]);
      TransitionTimeIsRunStart(calls[..n], kind);
      if !About(calls[n], kind) {
        DatesUntouched(calls, kind);
      } else if calls[n].Set? {
        if kind in m && m[kind].status == calls[n].condition.status {
          DatesContinued(calls, kind);
        } else {
          DatesRestarted(calls, kind);
        }
      }
    }
  }

  // ------------------------------------------------------- canonical marshalling

  lemma {:induction false} UniqueCounts(l: seq<Condition>, c: Condition)
    requires Unique(l)
    ensures multiset(l)[c] == if c in l then 1 else 0
  {
    if |l| > 0 {
      assert l == [l[0]] + l[1..];
      UniqueCounts(l[1..], c);
    }
  }

  lemma SameViewSameElements(a: seq<Condition>, b: seq<Condition>)
    requires Unique(a) && Unique(b) && ViewOf(a) == ViewOf(b)
    ensures multiset(a) == multiset(b)
  {
    forall c ensures multiset(a)[c] == multiset(b)[c] {
      UniqueCounts(a, c);
      UniqueCounts(b, c);
      assert c in a <==> c.kind in ViewOf(a) && ViewOf(a)[c.kind] == c;
      assert c in b <==> c.kind in ViewOf(b) && ViewOf(b)[c.kind] == c;
    }
  }

  lemma PermutationKeepsView(a: seq<Condition>, b: seq<Condition>)
    requires Unique(a) && multiset(a) == multiset(b)
    ensures Unique(b) && ViewOf(a) == ViewOf(b)
  {
    forall c ensures c in a <==> c in b {
      assert c in a <==> c in multiset(a);
      assert c in b <==> c in multiset(b);
    }
    forall i, j | 0 <= i < j < |b| ensures b[i].kind != b[j].kind {
      if b[i].kind == b[j].kind {
        assert b[i] in a && b[j] in a;
        UniqueCounts(a, b[i]);
        TwoCopies(b, i, j);
      }
    }
  }

  lemma TwoCopies(b: seq<Condition>, i: nat, j: nat)
    requires i < j < |b| && b[i] == b[j]
    ensures multiset(b)[b[i]] >= 2
  {
    assert b == b[..i] + [b[i]] + b[i + 1..j] + [b[j]] + b[j + 1..];
  }

  /** Lists that denote the same map serialise to the same array, whatever calls built them. */
  lemma MarshallingIsCanonical(a: seq<Condition>, b: seq<Condition>, sortedA: seq<Condition>, sortedB: seq<Condition>)
    requires Unique(a) && Unique(b) && ViewOf(a) == ViewOf(b)
    requires multiset(sortedA) == multiset(a) && SortedBy(sortedA, Kind)
    requires multiset(sortedB) == multiset(b) && SortedBy(sortedB, Kind)
    ensures sortedA == sortedB
  {
    SameViewSameElements(a, b);
    PermutationKeepsView(a, sortedA);
    SortedUnique(sortedA, sortedB, Kind);
  }

  // ------------------------------------------------------------- the Go methods

  class ConditionList {
    var list: seq<Condition>

    constructor ()
      ensures list == []
    {
      list := [];
    }

    method SetCondition(c: Condition, now: int) returns (changed: bool)
      modifies this
      ensures list == Replace(old(list), c, now)
      ensures changed <==>
                !exists i :: 0 <= i < |old(list)| && Find(old(list), c.kind) == i &&
                  old(list)[i].status == c.status && old(list)[i].reason == c.reason
                    && old(list)[i].message == c.message
    {
      var newCond := c.(since := now);
      var i := 0;
      while i < |list|
        invariant 0 <= i <= |list| && list == old(list)
        invariant forall k :: 0 <= k < i ==> list[k].kind != c.kind
        invariant newCond == c.(since := now)
      {
        var condition := list[i];
        if condition.kind == newCond.kind {
          assert Find(old(list), c.kind) == i;
          if condition.status == newCond.status {
            newCond := newCond.(since := condition.since);
          }
          changed := condition.status != newCond.status || condition.reason != newCond.reason
            || condition.message != newCond.message;
          list := list[i := newCond];
          return;
        }
        i := i + 1;
      }
      list := list + [newCond];
      return true;
    }

    method RemoveCondition(kind: string) returns (removed: bool)
      modifies this
      ensures list == Drop(old(list), kind)
      ensures removed <==> exists c :: c in old(list) && c.kind == kind
    {
      for i := 0 to |list|
        invariant list == old(list)
        invariant forall k :: 0 <= k < i ==> list[k].kind != kind
      {
        if list[i].kind == kind {
          assert Find(old(list), kind) == i && list[i] in old(list);
          list := list[..i] + list[i + 1..];
          return true;
        }
      }
      return false;
    }

    /** Marshalling sorts the receiver's own slice, then writes it out in that order. */
    method MarshalJson() returns (written: seq<Condition>)
      modifies this
      ensures written == list
      ensures multiset(list) == multiset(old(list)) && SortedBy(list, Kind)
      ensures Unique(old(list)) ==> Unique(list) && ViewOf(list) == ViewOf(old(list))
    {
      var before := list;
      list := Sort(list, Kind);
      if Unique(before) {
        PermutationKeepsView(before, list);
      }
      return list;
    }
  }

  method NewConditions(conds: seq<Condition>, clock: seq<int>) returns (r: ConditionList)
    requires |clock| == |conds|
    ensures fresh(r)
    ensures r.list == Replay([], seq(|conds|, i requires 0 <= i < |conds| => Set(conds[i], clock[i])))
    ensures Unique(r.list)
  {
    ghost var calls := seq(|conds|, i requires 0 <= i < |conds| => Set(conds[i], clock[i]));
    r := new ConditionList();
    for i := 0 to |conds|
      invariant fresh(r)
      invariant r.list == Replay([], calls[..i])
    {
      assert calls[..i + 1][..i] == calls[..i];
      var _ := r.SetCondition(conds[i], clock[i]);
    }
    assert calls[..|conds|] == calls;
    HistoryRefinesMap([], calls);
  }

  method GetCondition(list: seq<Condition>, kind: string) returns (r: Option<Condition>)
    ensures r.Some? ==> r.value in list && r.value.kind == kind
    ensures r.None? ==> forall c :: c in list ==> c.kind != kind
    ensures Unique(list) ==> r == if kind in ViewOf(list) then Some(ViewOf(list)[kind]) else None
  {
    for i := 0 to |list|
      invariant forall k :: 0 <= k < i ==> list[k].kind != kind
    {
      if list[i].kind == kind {
        return Some(list[i]);
      }
    }
    return None;
  }

  method IsTrueFor(list: seq<Condition>, kind: string) returns (r: bool)
    ensures r <==> Find(list, kind) < |list| && list[Find(list, kind)].status == TRUE
    ensures Unique(list) ==> (r <==> kind in ViewOf(list) && ViewOf(list)[kind].status == TRUE)
  {
    for i := 0 to |list|
      invariant forall k :: 0 <= k < i ==> list[k].kind != kind
    {
      if list[i].kind == kind {
        assert Find(list, kind) == i;
        assert list[i] in list;
        return list[i].status == TRUE;
      }
    }
    return false;
  }

  method IsFalseFor(list: seq<Condition>, kind: string) returns (r: bool)
    ensures r <==> Find(list, kind) < |list| && list[Find(list, kind)].status == FALSE
    ensures Unique(list) ==> (r <==> kind in ViewOf(list) && ViewOf(list)[kind].status == FALSE)
  {
    for i := 0 to |list|
      invariant forall k :: 0 <= k < i ==> list[k].kind != kind
    {
      if list[i].kind == kind {
        assert Find(list, kind) == i;
        assert list[i] in list;
        return list[i].status == FALSE;
      }
    }
    return false;
  }

  /** Unlike the other two, a kind that is absent counts as unknown. */
  method IsUnknownFor(list: seq<Condition>, kind: string) returns (r: bool)
    ensures r <==> (Find(list, kind) < |list| ==> list[Find(list, kind)].status == UNKNOWN)
    ensures Unique(list) ==> (r <==> (kind in ViewOf(list) ==> ViewOf(list)[kind].status == UNKNOWN))
  {
    for i := 0 to |list|
      invariant forall k :: 0 <= k < i ==> list[k].kind != kind
    {
      if list[i].kind == kind {
        assert Find(list, kind) == i;
        assert list[i] in list;
        return list[i].status == UNKNOWN;
      }
    }
    return true;
  }
}
