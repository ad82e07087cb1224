/** When a certificate authority regenerates its TLS certificate (ca_controller.go, 174-193, 579-625). */
module CertificateAuthority {
  import opened Wrappers
  import opened Ordering

  /** `net.ParseIP`, which is not part of this model: whether, and as what, a host reads as an IP address. */
  type IpParser = string -> Option<string>

  const LOOPBACK := "127.0.0.1"

  datatype Certificate = Certificate(serial: nat, dnsNames: seq<string>, ips: seq<string>)

  function DnsNames(hosts: seq<string>, parse: IpParser): seq<string> {
    if |hosts| == 0 then []
    else
      var h := hosts[|hosts| - 1];
      DnsNames(hosts[..|hosts| - 1], parse) + (if parse(h).None? then [h] else [])
  }

  function IpHosts(hosts: seq<string>, parse: IpParser): seq<string> {
    if |hosts| == 0 then []
    else
      var h := hosts[|hosts| - 1];
      IpHosts(hosts[..|hosts| - 1], parse) + (if parse(h).None? then [] else [h])
  }

  lemma CountOneMore(s: seq<string>, x: string, h: string)
    ensures multiset(s + [x])[h] == multiset(s)[h] + if x == h then 1 else 0
  {
  }

  /** Every host is either a DNS name or an IP, and none is lost or repeated. */
  lemma HostsPartitioned(hosts: seq<string>, parse: IpParser)
    ensures multiset(DnsNames(hosts, parse)) + multiset(IpHosts(hosts, parse)) == multiset(hosts)
  {
    var names := DnsNames(hosts, parse);
    var ips := IpHosts(hosts, parse);
    forall h ensures (multiset(names) + multiset(ips))[h] == multiset(hosts)[h] {
      HostCounted(hosts, parse, h);
      assert Counted(names, ips, hosts, h);
    }
  }

  lemma OneMoreHost(front: seq<string>, last: string, parse: IpParser)
    ensures DnsNames(front + [last], parse) == if parse(last).None? then DnsNames(front, parse) + [last]
              else DnsNames(front, parse)
    ensures IpHosts(front + [last], parse) == if parse(last).None? then IpHosts(front, parse)
              else IpHosts(front, parse) + [last]
  {
    assert (front + [last])[..|front|] == front;
  }

  ghost predicate Counted(names: seq<string>, ips: seq<string>, hosts: seq<string>, h: string) {
    multiset(names)[h] + multiset(ips)[h] == multiset(hosts)[h]
  }

  lemma CountedOneMore(names: seq<string>, ips: seq<string>, hosts: seq<string>, x: string, h: string)
    requires Counted(names, ips, hosts, h)
    ensures Counted(names + [x], ips, hosts + [x], h) && Counted(names, ips + [x], hosts + [x], h)
  {
    CountOneMore(names, x, h);
    CountOneMore(ips, x, h);
    CountOneMore(hosts, x, h);
  }

  lemma HostCountedNext(front: seq<string>, last: string, parse: IpParser, h: string)
    requires Counted(DnsNames(front, parse), IpHosts(front, parse), front, h)
    ensures Counted(DnsNames(front + [last], parse), IpHosts(front + [last], parse), front + [last], h)
  {
    OneMoreHost(front, last, parse);
    CountedOneMore(DnsNames(front, parse), IpHosts(front, parse), front, last, h);
  }

  lemma NoneCounted(parse: IpParser, h: string)
    ensures Counted(DnsNames([], parse), IpHosts([], parse), [], h)
  {
  }

  lemma {:induction false} HostCounted(hosts: seq<string>, parse: IpParser, h: string)
    ensures Counted(DnsNames(hosts, parse), IpHosts(hosts, parse), hosts, h)
  {
    if |hosts| == 0 {
      NoneCounted(parse, h);
      assert hosts == [];
    } else {
      var front := hosts[..|hosts| - 1];
      HostCounted(front, parse, h);
      HostCountedNext(front, hosts[|hosts| - 1], parse, h);
      assert hosts == front + [hosts[|hosts| - 1]];
    }
  }

  /** DNS names are the hosts that do not read as an IP; IP hosts are those that do. */
  lemma {:induction false} HostsSorted(hosts: seq<string>, parse: IpParser, h: string)
    ensures h in DnsNames(hosts, parse) <==> h in hosts && parse(h).None?
    ensures h in IpHosts(hosts, parse) <==> h in hosts && parse(h).Some?
  {
    if |hosts| > 0 {
      HostsSorted(hosts[..|hosts| - 1], parse, h);
      assert hosts == hosts[..|hosts| - 1] + [hosts[|hosts| - 1]];
    }
  }

  /** The DNS names are the hosts that do not read as an IP, each as often as it is listed and in that order. */
  lemma {:induction false} DnsNamesInOrder(hosts: seq<string>, parse: IpParser) returns (at: seq<nat>)
    ensures Picks(DnsNames(hosts, parse), hosts, at)
    ensures forall k :: 0 <= k < |hosts| ==> (parse(hosts[k]).None? <==> k in at)
  {
    if |hosts| == 0 {
      return [];
    }
    var front := hosts[..|hosts| - 1];
    var last := hosts[|hosts| - 1];
    at := DnsNamesInOrder(front, parse);
    assert hosts == front + [last];
    PicksLonger(DnsNames(front, parse), front, at, last);
    if parse(last).None? {
      at := at + [|front|];
    }
  }

  /** Likewise the hosts that do. */
  lemma {:induction false} IpHostsInOrder(hosts: seq<string>, parse: IpParser) returns (at: seq<nat>)
    ensures Picks(IpHosts(hosts, parse), hosts, at)
    ensures forall k :: 0 <= k < |hosts| ==> (parse(hosts[k]).Some? <==> k in at)
  {
    if |hosts| == 0 {
      return [];
    }
    var front := hosts[..|hosts| - 1];
    var last := hosts[|hosts| - 1];
    at := IpHostsInOrder(front, parse);
    assert hosts == front + [last];
    PicksLonger(IpHosts(front, parse), front, at, last);
    if parse(last).Some? {
      at := at + [|front|];
    }
  }

  /** The loopback address, then the address each IP host reads as, in the order of the hosts. */
  ghost predicate Addresses(ips: seq<string>, hosts: seq<string>, parse: IpParser) {
    && |ips| == 1 + |IpHosts(hosts, parse)| && ips[0] == LOOPBACK
    && forall k :: 0 <= k < |IpHosts(hosts, parse)| ==> parse(IpHosts(hosts, parse)[k]) == Some(ips[k + 1])
  }

  method GetDnsNames(hosts: seq<string>, parse: IpParser) returns (dnsNames: seq<string>)
    ensures dnsNames == DnsNames(hosts, parse)
  {
    dnsNames := [];
    for i := 0 to |hosts|
      invariant dnsNames == DnsNames(hosts[..i], parse)
    {
      assert hosts[..i + 1][..i] == hosts[..i];
      if parse(hosts[i]).None? {
        dnsNames := dnsNames + [hosts[i]];
      }
    }
    assert hosts[..|hosts|] == hosts;
  }

  method GetIpAddresses(hosts: seq<string>, parse: IpParser) returns (ips: seq<string>)
    ensures Addresses(ips, hosts, parse)
  {
    ips := [LOOPBACK];
    for i := 0 to |hosts|
      invariant Addresses(ips, hosts[..i], parse)
    {
      assert hosts[..i + 1][..i] == hosts[..i];
      var addr := parse(hosts[i]);
      if addr.Some? {
        ips := ips + [addr.value];
      }
    }
    assert hosts[..|hosts|] == hosts;
  }

  function Itself(s: string): string {
    s
  }

  /** Sorted name lists are equal exactly when the names are the same, counted. */
  lemma SortedEqualIffSameNames(a: seq<string>, b: seq<string>, sortedA: seq<string>, sortedB: seq<string>)
    requires multiset(sortedA) == multiset(a) && SortedBy(sortedA, Itself)
    requires multiset(sortedB) == multiset(b) && SortedBy(sortedB, Itself)
    ensures sortedA == sortedB <==> multiset(a) == multiset(b)
  {
    if multiset(a) == multiset(b) {
      SortedUnique(sortedA, sortedB, Itself);
    }
  }

  /** The decision compares DNS names only; the sorted IP addresses are logged and not compared. */
  method DoesCertNeedToBeRenewed(cert: Certificate, hosts: seq<string>, parse: IpParser) returns (renew: bool)
    ensures renew <==> multiset(cert.dnsNames) != multiset(DnsNames(hosts, parse))
  {
    var expected := GetDnsNames(hosts, parse);
    var sortedCert := Sort(cert.dnsNames, Itself);
    var sortedExpected := Sort(expected, Itself);
    SortedEqualIffSameNames(cert.dnsNames, expected, sortedCert, sortedExpected);
    if sortedCert != sortedExpected {
      return true;
    }
    return false;
  }

  datatype CredentialStore = Kubernetes | Vault | Unknown(name: string)

  /**
   * A fresh self-signed certificate for the hosts; its encoding keeps the names. `signed` is the serial number it
   * gets, absent when making it fails.
   */
  method CreateTlsCert(store: CredentialStore, signed: Option<nat>, hosts: seq<string>, parse: IpParser)
    returns (r: Result<Certificate, string>)
    ensures r.Ok? <==> !store.Unknown? && signed.Some?
    ensures r.Ok? ==> r.value.dnsNames == DnsNames(hosts, parse) && r.value.serial == signed.value
    ensures r.Ok? ==> Addresses(r.value.ips, hosts, parse)
  {
    if store.Unknown? {
      return Err("invalid credential store " + store.name);
    }
    var ips := GetIpAddresses(hosts, parse);
    var dnsNames := GetDnsNames(hosts, parse);
    if signed.None? {
      return Err("failed to create certificate");
    }
    return Ok(Certificate(signed.value, dnsNames, ips));
  }

  /** Whether the certificate names exactly the hosts' DNS names, counted. */
  predicate Names(cert: Certificate, hosts: seq<string>, parse: IpParser) {
    multiset(cert.dnsNames) == multiset(DnsNames(hosts, parse))
  }

  /** Stored, read and naming the hosts: the certificate that is left alone. */
  predicate Good(stored: Option<Certificate>, found: bool, hosts: seq<string>, parse: IpParser) {
    found && stored.Some? && Names(stored.value, hosts, parse)
  }

  /**
   * The TLS part of `GetConfig`: reuse the stored certificate, or make one when it is not `found` or its names are
   * off. A failed read of what is stored counts as nothing stored.
   */
  method TlsForConfig(stored: Option<Certificate>, found: bool, store: CredentialStore, signed: Option<nat>,
                      hosts: seq<string>, parse: IpParser)
    returns (r: Result<Certificate, string>)
    ensures r.Ok? ==> Names(r.value, hosts, parse)
    ensures Good(stored, found, hosts, parse) ==> r == Ok(stored.value)
    ensures r.Err? <==> !Good(stored, found, hosts, parse) && (store.Unknown? || signed.None?)
    ensures !Good(stored, found, hosts, parse) && r.Ok? ==>
              r.value.serial == signed.value && r.value.dnsNames == DnsNames(hosts, parse)
              && Addresses(r.value.ips, hosts, parse)
  {
    var existing := if found then stored else None;
    if existing.None? {
      r := CreateTlsCert(store, signed, hosts, parse);
    } else {
      r := Ok(existing.value);
      var renew := DoesCertNeedToBeRenewed(existing.value, hosts, parse);
      if renew {
        r := CreateTlsCert(store, signed, hosts, parse);
      }
    }
  }

  /**
   * Two reconciles in a row, the second making certificates of another serial number if any: it keeps the first
   * one's certificate, even where it could make none, exactly when it reads what is stored.
   */
  method RenewalSettles(stored: Option<Certificate>, store: CredentialStore, hosts: seq<string>, parse: IpParser,
                        found: bool, signed: Option<nat>, foundLater: bool, signedLater: Option<nat>)
    returns (first: Result<Certificate, string>, second: Result<Certificate, string>)
    ensures first.Ok? && signedLater != Some(first.value.serial) ==> (second == first <==> foundLater)
    ensures first.Ok? && second.Ok? ==> Names(first.value, hosts, parse) && Names(second.value, hosts, parse)
  {
    first := TlsForConfig(stored, found, store, signed, hosts, parse);
    var now := if first.Ok? then Some(first.value) else stored;
    second := TlsForConfig(now, foundLater, store, signedLater, hosts, parse);
  }
}
