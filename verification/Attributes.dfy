/**
 * The attribute strings of the command line: registration attributes (kubectl-hlf/cmd/ca/register.go, 62-75,
 * 125-152) and enrolment attribute requests (kubectl-hlf/cmd/ca/enroll.go, 75-94).
 */
module Attributes {
  import opened Wrappers
  import opened Text

  // ------------------------------------------------------------------ registration

  datatype Attribute = Attribute(name: string, value: string, ecert: bool)

  /**
   * `strings.ToLower` where it matters here: no character outside ASCII has a lower case among the letters of
   * "ecert".
   */
  function Lower(s: string): (r: string)
    ensures |r| == |s|
  {
    seq(|s|, i requires 0 <= i < |s| => if 'A' <= s[i] <= 'Z' then s[i] - 'A' + 'a' else s[i])
  }

  /** The same letters, each in either case. */
  predicate CaseVariant(s: string, lower: string) {
    |s| == |lower| &&
    forall i :: 0 <= i < |s| ==> s[i] == lower[i] || ('a' <= lower[i] <= 'z' && s[i] == lower[i] - 'a' + 'A')
  }

  /** A flag is taken in any letter case, and nothing else is. */
  lemma LowerIff(s: string, lower: string)
    requires forall i :: 0 <= i < |lower| ==> 'a' <= lower[i] <= 'z'
    ensures Lower(s) == lower <==> CaseVariant(s, lower)
  {
    if CaseVariant(s, lower) {
      forall i | 0 <= i < |s| ensures Lower(s)[i] == lower[i] {
      }
    }
    if Lower(s) == lower {
      forall i | 0 <= i < |s| ensures s[i] == lower[i] || s[i] == lower[i] - 'a' + 'A' {
        assert Lower(s)[i] == lower[i];
      }
    }
  }

  /** The non-empty items as a map; the later of two items with one name wins. */
  function Entries(items: seq<string>): Result<map<string, string>, string> {
    if |items| == 0 then Ok(map[])
    else
      var before := Entries(items[..|items| - 1]);
      var item := items[|items| - 1];
      if before.Err? || item == "" then before
      else if '=' !in item then Err(item)
      else Ok(before.value[SplitFirst(item, '=')[0] := SplitFirst(item, '=')[1]])
  }

  method ParseAttributes(attributes: string) returns (r: Result<map<string, string>, string>)
    ensures r == Entries(Split(attributes, ','))
  {
    var attributeList := Split(attributes, ',');
    var attrMap: map<string, string> := map[];
    for i := 0 to |attributeList|
      invariant Entries(attributeList[..i]) == Ok(attrMap)
    {
      assert attributeList[..i + 1][..i] == attributeList[..i];
      var attr := attributeList[i];
      if |attr| == 0 {
        continue;
      }
      var sattr := SplitFirst(attr, '=');
      if |sattr| != 2 {
        EntriesErrEarly(attributeList, i + 1);
        return Err(attr);
      }
      attrMap := attrMap[sattr[0] := sattr[1]];
    }
    assert attributeList[..|attributeList|] == attributeList;
    return Ok(attrMap);
  }

  lemma {:induction false} EntriesErrEarly(items: seq<string>, k: nat)
    requires k <= |items| && Entries(items[..k]).Err?
    ensures Entries(items) == Entries(items[..k])
  {
    if k == |items| {
      assert items[..k] == items;
    } else {
      assert items[..|items| - 1][..k] == items[..k];
      EntriesErrEarly(items[..|items| - 1], k);
    }
  }

  /** Refused exactly when some non-empty item has no '='. */
  lemma {:induction false} EntriesRefused(items: seq<string>)
    ensures Entries(items).Err? <==> exists i :: 0 <= i < |items| && items[i] != "" && '=' !in items[i]
  {
    if |items| > 0 {
      var front := items[..|items| - 1];
      EntriesRefused(front);
      assert forall i :: 0 <= i < |front| ==> front[i] == items[i];
    }
  }

  /** A name that occurs has the value of its last occurrence; the value starts after the first '='. */
  lemma {:induction false} EntriesLookup(items: seq<string>, j: nat, name: string, value: string)
    requires Entries(items).Ok? && j < |items| && items[j] == name + "=" + value && '=' !in name
    requires forall k, v :: j < k < |items| ==> items[k] != name + "=" + v
    ensures name in Entries(items).value && Entries(items).value[name] == value
  {
    var n := |items| - 1;
    var last := items[n];
    CutAt(name, '=', value);
    if j < n {
      var front := items[..n];
      assert forall k :: 0 <= k < n ==> front[k] == items[k];
      EntriesLookup(front, j, name, value);
      if '=' in last { FirstCut(last); }
    }
  }

  lemma FirstCut(item: string)
    requires '=' in item
    ensures item == SplitFirst(item, '=')[0] + "=" + SplitFirst(item, '=')[1] && '=' !in SplitFirst(item, '=')[0]
  {
  }

  /** A name in the map occurs. */
  lemma {:induction false} EntriesOccur(items: seq<string>, name: string)
    requires Entries(items).Ok? && name in Entries(items).value
    ensures '=' !in name && exists k, v :: 0 <= k < |items| && items[k] == name + "=" + v
  {
    var n := |items| - 1;
    var last := items[n];
    if last != "" && SplitFirst(last, '=')[0] == name {
      FirstCut(last);
    } else {
      EntriesOccur(items[..n], name);
      var k, v :| 0 <= k < n && items[..n][k] == name + "=" + v;
      assert items[k] == name + "=" + v;
    }
  }

  /** A value may carry one flag: nothing, or "ecert" in any letter case. */
  predicate Convertible(value: string) {
    var sattr := Split(value, ':');
    |sattr| == 1 || (|sattr| == 2 && Lower(sattr[1]) in {"", "ecert"})
  }

  /** The attribute a convertible entry stands for. */
  function Converted(name: string, value: string): Attribute {
    var sattr := Split(value, ':');
    Attribute(name, sattr[0], |sattr| == 2 && Lower(sattr[1]) == "ecert")
  }

  /** A value without a colon stands for itself; with one, a flag that is empty or some spelling of "ecert" follows. */
  lemma ConvertibleIff(value: string)
    ensures Convertible(value) <==>
              || ':' !in value
              || exists v, flag :: value == v + ":" + flag && ':' !in v && ':' !in flag
                                   && (flag == "" || CaseVariant(flag, "ecert"))
  {
    var parts := Split(value, ':');
    JoinSplit(value, ':');
    PiecesFree(value, ':');
    if |parts| == 2 {
      assert parts[0] in parts && parts[1] in parts;
      assert parts == [parts[0], parts[1]];
      assert value == parts[0] + ":" + parts[1];
      LowerIff(parts[1], "ecert");
      assert Lower(parts[1]) == "" <==> parts[1] == "";
    }
    forall v, flag | value == v + ":" + flag && ':' !in v && ':' !in flag ensures parts == [v, flag] {
      TwoPieces(v, flag);
    }
    if ':' in value {
      assert |parts| >= 2;
    }
  }

  /** What such a value converts to. */
  lemma ConvertedIs(name: string, v: string, flag: string)
    requires ':' !in v && ':' !in flag && (flag == "" || CaseVariant(flag, "ecert"))
    ensures Converted(name, v + ":" + flag) == Attribute(name, v, flag != "")
    ensures Converted(name, v) == Attribute(name, v, false)
  {
    TwoPieces(v, flag);
    LowerIff(flag, "ecert");
  }

  predicate DistinctNames(attrs: seq<Attribute>) {
    forall i, j :: 0 <= i < j < |attrs| ==> attrs[i].name != attrs[j].name
  }

  /** One attribute for each entry, in some order. */
  ghost predicate IsConversion(out: seq<Attribute>, entries: map<string, string>) {
    && DistinctNames(out)
    && (forall a :: a in out ==> a.name in entries && a == Converted(a.name, entries[a.name]))
    && (forall name :: name in entries ==> Converted(name, entries[name]) in out)
  }

  /**
   * The map is visited in an arbitrary order; the outcome is the same set of attributes, or a refusal, for all of
   * them.
   */
  method ConvertAttrs(inAttrs: map<string, string>) returns (r: Result<seq<Attribute>, string>)
    ensures r.Ok? <==> forall name :: name in inAttrs ==> Convertible(inAttrs[name])
    ensures r.Ok? ==> IsConversion(r.value, inAttrs)
  {
    var outAttrs: seq<Attribute> := [];
    var todo := inAttrs.Keys;
    while todo != {}
      invariant todo <= inAttrs.Keys
      invariant DistinctNames(outAttrs)
      invariant forall a :: a in outAttrs ==> a.name in inAttrs.Keys - todo && a == Converted(a.name, inAttrs[a.name])
      invariant forall name :: name in inAttrs.Keys - todo ==>
                  Convertible(inAttrs[name]) && Converted(name, inAttrs[name]) in outAttrs
      decreases |todo|
    {
      var name :| name in todo;
      var value := inAttrs[name];
      var sattr := Split(value, ':');
      if |sattr| > 2 {
        assert !Convertible(value);
        return Err(value);
      }
      var attrFlag := "";
      if |sattr| > 1 {
        attrFlag := sattr[1];
      }
      var ecert := false;
      var flag := Lower(attrFlag);
      if flag == "" {
      } else if flag == "ecert" {
        ecert := true;
      } else {
        assert !Convertible(value);
        return Err(attrFlag);
      }
      outAttrs := outAttrs + [Attribute(name, sattr[0], ecert)];
      todo := todo - {name};
    }
    return Ok(outAttrs);
  }

  function Printed(a: Attribute): string {
    a.name + "=" + Flagged(a)
  }

  function Flagged(a: Attribute): string {
    if a.ecert then a.value + ":ecert" else a.value
  }

  function PrintedAll(attrs: seq<Attribute>): seq<string> {
    seq(|attrs|, i requires 0 <= i < |attrs| => Printed(attrs[i]))
  }

  function PrintAttributes(attrs: seq<Attribute>): string {
    Join(PrintedAll(attrs), ',')
  }

  /** Names hold no ',' or '='; values no ',' or ':', though they may hold '='. */
  predicate DelimiterFree(a: Attribute) {
    ',' !in a.name && '=' !in a.name && ',' !in a.value && ':' !in a.value
  }

  lemma TwoPieces(first: string, second: string)
    requires ':' !in first && ':' !in second
    ensures Split(first + ":" + second, ':') == [first, second]
  {
    SplitJoin([first, second], ':');
    assert Join([first, second], ':') == first + ":" + second;
  }

  /** A flagged value converts back to the attribute it came from. */
  lemma FlaggedConverts(a: Attribute)
    requires DelimiterFree(a)
    ensures Convertible(Flagged(a)) && Converted(a.name, Flagged(a)) == a
  {
    if a.ecert {
      TwoPieces(a.value, "ecert");
      assert a.value + ":" + "ecert" == Flagged(a);
      assert Lower("ecert") == "ecert";
    }
  }

  lemma PrintedSplits(a: Attribute)
    requires DelimiterFree(a)
    ensures ',' !in Printed(a) && '=' in Printed(a)
    ensures SplitFirst(Printed(a), '=') == [a.name, Flagged(a)]
  {
    CutAt(a.name, '=', Flagged(a));
    assert Printed(a) == a.name + ['='] + Flagged(a);
    assert ',' !in Flagged(a);
  }

  /** The map with one entry for each attribute: its name, and its value with the flag. */
  ghost predicate Holds(m: map<string, string>, attrs: seq<Attribute>) {
    && (forall i :: 0 <= i < |attrs| ==> attrs[i].name in m && m[attrs[i].name] == Flagged(attrs[i]))
    && (forall name :: name in m ==> exists i :: 0 <= i < |attrs| && attrs[i].name == name)
  }

  lemma HoldsOneMore(m: map<string, string>, attrs: seq<Attribute>, a: Attribute)
    requires Holds(m, attrs) && DistinctNames(attrs + [a])
    ensures Holds(m[a.name := Flagged(a)], attrs + [a])
  {
    var all := attrs + [a];
    var after := m[a.name := Flagged(a)];
    forall i | 0 <= i < |all| ensures all[i].name in after && after[all[i].name] == Flagged(all[i]) {
      if i < |attrs| {
        assert all[i] == attrs[i] && all[|attrs|] == a;
      }
    }
    forall name | name in after ensures exists i :: 0 <= i < |all| && all[i].name == name {
      if name == a.name {
        assert all[|attrs|].name == name;
      } else {
        var i :| 0 <= i < |attrs| && attrs[i].name == name;
        assert all[i].name == name;
      }
    }
  }

  lemma PrintedOneMore(attrs: seq<Attribute>, a: Attribute)
    ensures PrintedAll(attrs + [a]) == PrintedAll(attrs) + [Printed(a)]
  {
  }

  lemma EntriesOneMore(items: seq<string>, a: Attribute)
    requires DelimiterFree(a) && Entries(items).Ok?
    ensures Entries(items + [Printed(a)]) == Ok(Entries(items).value[a.name := Flagged(a)])
  {
    assert (items + [Printed(a)])[..|items|] == items;
    PrintedSplits(a);
  }

  lemma {:induction false} EntriesOfPrinted(attrs: seq<Attribute>)
    requires DistinctNames(attrs) && forall a :: a in attrs ==> DelimiterFree(a)
    ensures Entries(PrintedAll(attrs)).Ok? && Holds(Entries(PrintedAll(attrs)).value, attrs)
  {
    if |attrs| > 0 {
      var front := attrs[..|attrs| - 1];
      var a := attrs[|attrs| - 1];
      EntriesOfPrinted(front);
      assert attrs == front + [a];
      PrintedOneMore(front, a);
      EntriesOneMore(PrintedAll(front), a);
      HoldsOneMore(Entries(PrintedAll(front)).value, front, a);
    }
  }

  lemma PrintedReads(attrs: seq<Attribute>)
    requires forall a :: a in attrs ==> DelimiterFree(a)
    ensures Entries(Split(PrintAttributes(attrs), ',')) == Entries(PrintedAll(attrs))
  {
    if |attrs| == 0 {
      assert PrintedAll(attrs) == [];
      assert Split(PrintAttributes(attrs), ',') == [""];
      assert [""][..0] == [];
    } else {
      forall p | p in PrintedAll(attrs) ensures ',' !in p {
        var i :| 0 <= i < |attrs| && p == Printed(attrs[i]);
        PrintedSplits(attrs[i]);
      }
      SplitJoin(PrintedAll(attrs), ',');
    }
  }

  /** Printing registration attributes and parsing them back gives the same attributes, whatever the visiting order. */
  lemma AttributesRoundTrip(attrs: seq<Attribute>)
    requires DistinctNames(attrs) && forall a :: a in attrs ==> DelimiterFree(a)
    ensures var parsed := Entries(Split(PrintAttributes(attrs), ','));
            && parsed.Ok?
            && (forall name :: name in parsed.value ==> Convertible(parsed.value[name]))
            && (forall out :: IsConversion(out, parsed.value) ==> multiset(out) == multiset(attrs))
  {
    EntriesOfPrinted(attrs);
    var m := Entries(PrintedAll(attrs)).value;
    PrintedReads(attrs);
    forall name | name in m ensures Convertible(m[name]) {
      var i :| 0 <= i < |attrs| && attrs[i].name == name;
      FlaggedConverts(attrs[i]);
    }
    forall out | IsConversion(out, m) ensures multiset(out) == multiset(attrs) {
      ConversionIs(out, m, attrs);
    }
  }

  lemma ConversionIs(out: seq<Attribute>, m: map<string, string>, attrs: seq<Attribute>)
    requires IsConversion(out, m)
    requires DistinctNames(attrs) && forall a :: a in attrs ==> DelimiterFree(a)
    requires Holds(m, attrs)
    ensures multiset(out) == multiset(attrs)
  {
    forall a | a in attrs ensures a in out {
      FlaggedConverts(a);
      var i :| 0 <= i < |attrs| && attrs[i] == a;
    }
    forall a | a in out ensures a in attrs {
      var i :| 0 <= i < |attrs| && attrs[i].name == a.name;
      FlaggedConverts(attrs[i]);
    }
    forall a: Attribute ensures multiset(out)[a] == multiset(attrs)[a] {
      OnceEach(out, a);
      OnceEach(attrs, a);
    }
  }

  lemma {:induction false} OnceEach(attrs: seq<Attribute>, a: Attribute)
    requires DistinctNames(attrs)
    ensures multiset(attrs)[a] == if a in attrs then 1 else 0
  {
    if |attrs| > 0 {
      OnceEach(attrs[1..], a);
      assert attrs == [attrs[0]] + attrs[1..];
    }
  }

  // ---------------------------------------------------------------------- enrolment

  datatype Request = Request(name: string, optional: bool)

  /** One item: `name`, or `name:opt`. */
  function ParseRequest(item: string): Result<Request, string> {
    var sreq := Split(item, ':');
    if |sreq| == 1 then Ok(Request(sreq[0], false))
    else if |sreq| == 2 && sreq[1] == "opt" then Ok(Request(sreq[0], true))
    else Err(item)
  }

  function ParseItems(items: seq<string>): Result<seq<Request>, string> {
    if |items| == 0 then Ok([])
    else
      var before := ParseItems(items[..|items| - 1]);
      var last := ParseRequest(items[|items| - 1]);
      if before.Err? then before
      else if last.Err? then Err(last.error)
      else Ok(before.value + [last.value])
  }

  function ParseRequests(attributes: string): Result<seq<Request>, string> {
    if attributes == "" then Ok([]) else ParseItems(Split(attributes, ','))
  }

  method ReadRequests(attributes: string) returns (r: Result<seq<Request>, string>)
    ensures r == ParseRequests(attributes)
  {
    var requests: seq<Request> := [];
    if |attributes| > 0 {
      var attributeList := Split(attributes, ',');
      for i := 0 to |attributeList|
        invariant ParseItems(attributeList[..i]) == Ok(requests)
      {
        assert attributeList[..i + 1][..i] == attributeList[..i];
        var attr := attributeList[i];
        var sreq := Split(attr, ':');
        var name := sreq[0];
        var request := Request(name, false);
        if |sreq| == 1 {
        } else if |sreq| == 2 {
          if sreq[1] != "opt" {
            ItemsErrEarly(attributeList, i + 1);
            return Err(attr);
          }
          request := Request(name, true);
        } else {
          ItemsErrEarly(attributeList, i + 1);
          return Err(attr);
        }
        requests := requests + [request];
      }
      assert attributeList[..|attributeList|] == attributeList;
    }
    return Ok(requests);
  }

  lemma {:induction false} ItemsErrEarly(items: seq<string>, k: nat)
    requires k <= |items| && ParseItems(items[..k]).Err?
    ensures ParseItems(items) == ParseItems(items[..k])
  {
    if k == |items| {
      assert items[..k] == items;
    } else {
      assert items[..|items| - 1][..k] == items[..k];
      ItemsErrEarly(items[..|items| - 1], k);
    }
  }

  function PrintRequest(q: Request): string {
    if q.optional then q.name + ":opt" else q.name
  }

  function PrintItems(requests: seq<Request>): (items: seq<string>)
    ensures |items| == |requests|
  {
    seq(|requests|, i requires 0 <= i < |requests| => PrintRequest(requests[i]))
  }

  function PrintRequests(requests: seq<Request>): string {
    Join(PrintItems(requests), ',')
  }

  predicate Plain(q: Request) {
    ',' !in q.name && ':' !in q.name
  }

  lemma RequestRoundTrip(q: Request)
    requires Plain(q)
    ensures ParseRequest(PrintRequest(q)) == Ok(q) && ',' !in PrintRequest(q)
  {
    if q.optional {
      TwoPieces(q.name, "opt");
      assert q.name + ":" + "opt" == PrintRequest(q);
    }
  }

  lemma {:induction false} ItemsRoundTrip(requests: seq<Request>)
    requires forall q :: q in requests ==> Plain(q)
    ensures ParseItems(PrintItems(requests)) == Ok(requests)
  {
    if |requests| > 0 {
      var n := |requests| - 1;
      ItemsRoundTrip(requests[..n]);
      RequestRoundTrip(requests[n]);
      assert PrintItems(requests)[..n] == PrintItems(requests[..n]);
      assert requests == requests[..n] + [requests[n]];
    }
  }

  /**
   * Printing enrolment requests and parsing them back is exact but for one list: a single required request with an
   * empty name prints as the empty string, which reads as no request at all.
   */
  lemma RequestsRoundTripIff(requests: seq<Request>)
    requires forall q :: q in requests ==> Plain(q)
    ensures ParseRequests(PrintRequests(requests)) == Ok(requests) <==> requests != [Request("", false)]
  {
    if |requests| > 0 {
      forall p | p in PrintItems(requests) ensures ',' !in p {
        var i :| 0 <= i < |requests| && p == PrintRequest(requests[i]);
        RequestRoundTrip(requests[i]);
      }
      ItemsRoundTrip(requests);
      SplitJoin(PrintItems(requests), ',');
      if |requests| == 1 {
        assert PrintRequests(requests) == PrintRequest(requests[0]);
        assert PrintRequest(requests[0]) == "" <==> requests[0] == Request("", false);
        assert requests == [requests[0]];
      } else {
        assert ',' in PrintRequests(requests);
      }
    }
  }

  lemma PrintOneMore(requests: seq<Request>, q: Request)
    ensures PrintItems(requests + [q]) == PrintItems(requests) + [PrintRequest(q)]
  {
  }

  lemma {:induction false} ItemsReprint(items: seq<string>)
    requires ParseItems(items).Ok? && forall p :: p in items ==> ',' !in p
    ensures PrintItems(ParseItems(items).value) == items
    ensures forall q :: q in ParseItems(items).value ==> Plain(q)
  {
    if |items| > 0 {
      var front := items[..|items| - 1];
      var last := items[|items| - 1];
      assert items == front + [last];
      ItemsReprint(front);
      ItemReprint(last);
      PrintOneMore(ParseItems(front).value, ParseRequest(last).value);
    }
  }

  lemma ItemReprint(item: string)
    requires ParseRequest(item).Ok? && ',' !in item
    ensures PrintRequest(ParseRequest(item).value) == item && Plain(ParseRequest(item).value)
  {
    JoinSplit(item, ':');
    PiecesFree(item, ':');
    var sreq := Split(item, ':');
    if |sreq| == 2 {
      assert sreq == [sreq[0], sreq[1]];
      assert item == sreq[0] + [':'] + sreq[1];
      assert ":opt" == [':'] + "opt";
    }
    assert sreq[0] in sreq;
  }

  /** Every accepted string is the print of the plain requests it parses to: nothing is read two ways. */
  lemma AcceptedIsPrinted(attributes: string)
    requires ParseRequests(attributes).Ok?
    ensures PrintRequests(ParseRequests(attributes).value) == attributes
    ensures forall q :: q in ParseRequests(attributes).value ==> Plain(q)
  {
    if attributes != "" {
      PiecesFree(attributes, ',');
      ItemsReprint(Split(attributes, ','));
      JoinSplit(attributes, ',');
    }
  }
}
