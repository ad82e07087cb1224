/**
 * Orderer endpoints: `net.SplitHostPort`, `strconv.Atoi` and the `host:port` form in which the channel
 * configuration stores an address.
 */
module HostPort {
  import opened Wrappers

  datatype Address = Address(host: string, port: int)

  datatype EndpointError = MissingPort | TooManyColons | MissingBracket | UnexpectedBracket | BadNumber

  /** The index of the last `c` in `s`. */
  function LastIndexOf(s: string, c: char): (i: nat)
    requires c in s
    ensures i < |s| && s[i] == c && c !in s[i + 1..]
  {
    if s[|s| - 1] == c then |s| - 1
    else
      assert s == s[..|s| - 1] + [s[|s| - 1]];
      var i := LastIndexOf(s[..|s| - 1], c);
      assert s[i + 1..] == s[..|s| - 1][i + 1..] + [s[|s| - 1]];
      i
  }

  function FirstIndexOf(s: string, c: char): (i: nat)
    requires c in s
    ensures i < |s| && s[i] == c && c !in s[..i]
  {
    if s[0] == c then 0 else 1 + FirstIndexOf(s[1..], c)
  }

  /** `net.SplitHostPort`. */
  function SplitHostPort(s: string): Result<(string, string), EndpointError> {
    if ':' !in s then Err(MissingPort)
    else
      var i := LastIndexOf(s, ':');
      if s[0] == '[' then
        if ']' !in s then Err(MissingBracket)
        else
          var end := FirstIndexOf(s, ']');
          if end + 1 == |s| then Err(MissingPort)
          else if end + 1 != i then Err(if s[end + 1] == ':' then TooManyColons else MissingPort)
          else if '[' in s[1..] || ']' in s[end + 1..] then Err(UnexpectedBracket)
          else Ok((s[1..end], s[i + 1..]))
      else if ':' in s[..i] then Err(TooManyColons)
      else if '[' in s || ']' in s then Err(UnexpectedBracket)
      else Ok((s[..i], s[i + 1..]))
  }

  predicate Free(s: string, colon: bool) {
    '[' !in s && ']' !in s && (colon || ':' !in s)
  }

  lemma {:induction false} FirstIndexUnique(s: string, c: char, k: nat)
    requires k < |s| && s[k] == c && c !in s[..k]
    ensures FirstIndexOf(s, c) == k
  {
    if k > 0 {
      assert s[..k][0] == s[0];
      assert s[1..][..k - 1] == s[..k][1..];
      FirstIndexUnique(s[1..], c, k - 1);
    }
  }

  /** `host:port` splits where neither side holds a colon or a bracket. */
  lemma PlainSplits(host: string, port: string)
    requires Free(host, false) && Free(port, false)
    ensures SplitHostPort(host + ":" + port) == Ok((host, port))
  {
    var s := host + ":" + port;
    LastColon(host, port);
    assert s[..|host|] == host && s[|host| + 1..] == port;
    assert s[0] != '[' by {
      if |host| > 0 { assert s[0] == host[0] && host[0] in host; }
    }
    assert forall c :: c in s ==> c in host || c == ':' || c in port;
  }

  /** `[host]:port` splits where the host, colons or not, holds no bracket. */
  lemma BracketedSplit(host: string, port: string)
    requires Free(host, true) && Free(port, false)
    ensures SplitHostPort("[" + host + "]:" + port) == Ok((host, port))
  {
    var s := "[" + host + "]:" + port;
    var end := |host| + 1;
    assert s[end] == ']' && s[end + 1] == ':' && s[end + 2..] == port && s[1..end] == host;
    assert s[..end] == "[" + host;
    FirstIndexUnique(s, ']', end);
    LastIndexUnique(s, ':', end + 1);
    assert s[1..] == host + "]:" + port;
    assert s[end + 1..] == ":" + port;
    assert forall c :: c in s[1..] ==> c in host || c == ']' || c == ':' || c in port;
    assert forall c :: c in s[end + 1..] ==> c == ':' || c in port;
  }

  /** Nothing else splits. */
  lemma SplitIsPlainOrBracketed(s: string)
    requires SplitHostPort(s).Ok?
    ensures var (host, port) := SplitHostPort(s).value;
            && Free(port, false)
            && ((Free(host, false) && s == host + ":" + port) || (Free(host, true) && s == "[" + host + "]:" + port))
  {
    if s[0] == '[' {
      SplitWasBracketed(s);
    } else {
      var i := LastIndexOf(s, ':');
      assert s == s[..i] + [s[i]] + s[i + 1..];
    }
  }

  lemma SplitWasBracketed(s: string)
    requires SplitHostPort(s).Ok? && s[0] == '['
    ensures var (host, port) := SplitHostPort(s).value;
            Free(port, false) && Free(host, true) && s == "[" + host + "]:" + port
  {
    var i := LastIndexOf(s, ':');
    var end := FirstIndexOf(s, ']');
    var host, port := s[1..end], s[i + 1..];
    assert s == "[" + host + "]:" + port;
    SubstringFree(s[1..], host, port);
    assert forall k :: 0 <= k < |host| ==> host[k] == s[..end][k + 1];
    assert forall k :: 0 <= k < |port| ==> port[k] == s[end + 1..][k + 1];
  }

  lemma SubstringFree(s: string, host: string, port: string)
    requires '[' !in s && s == host + "]:" + port
    ensures '[' !in host && '[' !in port
  {
    assert forall k :: 0 <= k < |host| ==> host[k] == s[k];
    assert forall k :: 0 <= k < |port| ==> port[k] == s[|host| + 2 + k];
  }

  // ------------------------------------------------------------------ numbers

  const INT_MAX: int := 0x7fff_ffff_ffff_ffff

  predicate IsDigit(c: char) {
    '0' <= c <= '9'
  }

  function DigitValue(c: char): (d: nat)
    requires IsDigit(c)
    ensures d < 10
  {
    c as int - '0' as int
  }

  function Digit(d: nat): (c: char)
    requires d < 10
    ensures IsDigit(c) && DigitValue(c) == d
  {
    (d + '0' as int) as char
  }

  function Digits(n: nat): (s: string)
    ensures |s| > 0 && forall c :: c in s ==> IsDigit(c)
  {
    if n < 10 then [Digit(n)] else Digits(n / 10) + [Digit(n % 10)]
  }

  function Value(s: string): nat
    requires forall c :: c in s ==> IsDigit(c)
  {
    if |s| == 0 then 0 else 10 * Value(s[..|s| - 1]) + DigitValue(s[|s| - 1])
  }

  lemma {:induction false} ValueOfDigits(n: nat)
    ensures Value(Digits(n)) == n
  {
    if n >= 10 {
      ValueOfDigits(n / 10);
      assert Digits(n)[..|Digits(n)| - 1] == Digits(n / 10);
    }
  }

  /** `strconv.Atoi` on a 64-bit platform. */
  function Atoi(s: string): Result<int, EndpointError> {
    var negative := |s| > 0 && s[0] == '-';
    var digits := if |s| > 0 && (s[0] == '-' || s[0] == '+') then s[1..] else s;
    if |digits| == 0 || exists c :: c in digits && !IsDigit(c) then Err(BadNumber)
    else
      var v: int := Value(digits);
      if negative then (if v > INT_MAX + 1 then Err(BadNumber) else Ok(-v))
      else if v > INT_MAX then Err(BadNumber) else Ok(v)
  }

  function Decimal(n: int): string {
    if n < 0 then "-" + Digits(-n) else Digits(n)
  }

  lemma AtoiDigits(s: string)
    requires |s| > 0 && (forall c :: c in s ==> IsDigit(c))
    ensures var v: int := Value(s);
            (v <= INT_MAX ==> Atoi(s) == Ok(v)) && (v <= INT_MAX + 1 ==> Atoi("-" + s) == Ok(-v))
  {
    assert s[0] in s;
    assert ("-" + s)[1..] == s;
  }

  lemma AtoiDecimal(n: int)
    requires -INT_MAX - 1 <= n <= INT_MAX
    ensures Atoi(Decimal(n)) == Ok(n)
  {
    var m := if n < 0 then -n else n;
    ValueOfDigits(m);
    AtoiDigits(Digits(m));
  }

  lemma DecimalPlain(n: int)
    ensures forall c :: c in Decimal(n) ==> c != ':' && c != '[' && c != ']'
  {
  }

  // ---------------------------------------------------------------- endpoints

  /** What the update loops do to an endpoint string before handing it to the configuration. */
  function Parse(endpoint: string): Result<Address, EndpointError> {
    match SplitHostPort(endpoint)
    case Err(e) => Err(e)
    case Ok(parts) =>
      match Atoi(parts.1)
      case Err(e) => Err(e)
      case Ok(port) => Ok(Address(parts.0, port))
  }

  function Print(a: Address): string {
    a.host + ":" + Decimal(a.port)
  }

  /** The endpoint strings for which parsing then printing changes nothing. */
  predicate Canonical(endpoint: string) {
    Parse(endpoint).Ok? && Print(Parse(endpoint).value) == endpoint
  }

  predicate PlainHost(host: string) {
    ':' !in host && '[' !in host && ']' !in host
  }

  lemma {:induction false} LastIndexUnique(s: string, c: char, k: nat)
    requires k < |s| && s[k] == c && c !in s[k + 1..]
    ensures LastIndexOf(s, c) == k
  {
    if k < |s| - 1 {
      assert s[k + 1..][|s| - k - 2] == s[|s| - 1];
      assert s[k + 1..] == s[..|s| - 1][k + 1..] + [s[|s| - 1]];
      LastIndexUnique(s[..|s| - 1], c, k);
    }
  }

  lemma LastColon(host: string, port: string)
    requires ':' !in port
    ensures ':' in host + ":" + port
    ensures LastIndexOf(host + ":" + port, ':') == |host|
  {
    var s := host + ":" + port;
    assert s[|host|] == ':';
    assert s[|host| + 1..] == port;
    LastIndexUnique(s, ':', |host|);
  }

  /** Printing then parsing returns the address, for hosts without colons or brackets. */
  lemma ParsePrint(a: Address)
    requires PlainHost(a.host) && -INT_MAX - 1 <= a.port <= INT_MAX
    ensures Parse(Print(a)) == Ok(a)
  {
    DecimalPlain(a.port);
    PlainSplits(a.host, Decimal(a.port));
    AtoiDecimal(a.port);
  }

  lemma ParsedParts(endpoint: string)
    requires Parse(endpoint).Ok?
    ensures '[' !in Parse(endpoint).value.host && ']' !in Parse(endpoint).value.host
    ensures -INT_MAX - 1 <= Parse(endpoint).value.port <= INT_MAX
  {
    var parts := SplitHostPort(endpoint).value;
    if endpoint[0] == '[' {
      var end := FirstIndexOf(endpoint, ']');
      assert forall k :: 0 <= k < |parts.0| ==> parts.0[k] == endpoint[1..][k] && parts.0[k] == endpoint[..end][k + 1];
    }
  }

  /** An endpoint that names a host without colons is stored in canonical form. */
  lemma PrintedIsCanonical(endpoint: string)
    requires Parse(endpoint).Ok? && ':' !in Parse(endpoint).value.host
    ensures Canonical(Print(Parse(endpoint).value))
    ensures Parse(Print(Parse(endpoint).value)) == Parse(endpoint)
  {
    ParsedParts(endpoint);
    ParsePrint(Parse(endpoint).value);
  }

  /** Split-then-print is the identity exactly on an unbracketed `host:port` whose port is in plain decimal. */
  lemma CanonicalForm(endpoint: string)
    ensures Canonical(endpoint) <==>
              exists a: Address :: PlainHost(a.host) && -INT_MAX - 1 <= a.port <= INT_MAX && endpoint == Print(a)
  {
    if Canonical(endpoint) {
      var a := Parse(endpoint).value;
      ParsedParts(endpoint);
      DecimalPlain(a.port);
      LastColon(a.host, Decimal(a.port));
      assert endpoint == a.host + ":" + Decimal(a.port);
      assert endpoint[0] != '[' by {
        if |a.host| > 0 { assert endpoint[0] == a.host[0] && a.host[0] in a.host; }
      }
      assert endpoint[..|a.host|] == a.host;
      assert PlainHost(a.host);
    }
    if a: Address :| PlainHost(a.host) && -INT_MAX - 1 <= a.port <= INT_MAX && endpoint == Print(a) {
      ParsePrint(a);
    }
  }
}
