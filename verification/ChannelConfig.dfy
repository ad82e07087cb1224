/** The channel configuration the reconcilers read and edit, and the configuration a spec asks for. */
module ChannelConfig {
  import opened Wrappers
  import opened HostPort

  datatype Policy = Policy(kind: string, rule: string)

  datatype ConsensusState = Normal | Maintenance

  datatype Consenter = Consenter(host: string, port: int, clientCert: string, serverCert: string)

  datatype BftConsenter = BftConsenter(
    id: int, host: string, port: int, mspId: string, identity: string, clientCert: string, serverCert: string)

  datatype RaftOptions = RaftOptions(
    tickInterval: string, electionTick: int, heartbeatTick: int, maxInflightBlocks: int, snapshotIntervalSize: int)

  /** The consensus type together with the metadata that belongs to it. */
  datatype Consensus = Raft(consenters: seq<Consenter>, options: RaftOptions) | Bft(smartOptions: string)

  datatype BatchSize = BatchSize(maxMessageCount: int, absoluteMaxBytes: int, preferredMaxBytes: int)

  /** Everything in an MSP but its revocation list is one opaque value here. */
  datatype Msp = Msp(material: string, revocations: seq<string>)

  datatype Organization = Organization(
    name: string, policies: map<string, Policy>, msp: Msp, anchors: seq<Address>, endpoints: seq<string>)

  type Organizations = map<string, Organization>

  datatype ApplicationGroup = ApplicationGroup(
    orgs: Organizations, policies: map<string, Policy>, acls: map<string, string>, capabilities: set<string>)

  datatype OrdererGroup = OrdererGroup(
    consensus: Consensus, state: ConsensusState, mapping: seq<BftConsenter>, orgs: Organizations,
    policies: map<string, Policy>, batchSize: BatchSize, batchTimeout: string, capabilities: set<string>)

  datatype Channel = Channel(application: ApplicationGroup, orderer: OrdererGroup, capabilities: set<string>)

  // ------------------------------------------------------ what a spec asks for

  datatype WantedConsensus =
    | WantRaft(consenters: seq<Consenter>, options: RaftOptions)
    | WantBft(smartOptions: string, mapping: seq<BftConsenter>)

  datatype WantedApplication = WantedApplication(
    orgs: seq<Organization>, policies: map<string, Policy>, acls: Option<map<string, string>>,
    capabilities: seq<string>)

  datatype WantedOrderer = WantedOrderer(
    consensus: WantedConsensus, state: ConsensusState, orgs: seq<Organization>, policies: map<string, Policy>,
    batchSize: BatchSize, batchTimeout: string, capabilities: seq<string>)

  datatype Wanted = Wanted(application: WantedApplication, orderer: WantedOrderer, capabilities: seq<string>)

  datatype UpdateError = BadEndpoint(reason: EndpointError) | Downgrade

  // ---------------------------------------------------------------- shorthands

  function Elements<T>(s: seq<T>): set<T> {
    set x | x in s
  }

  function Names(orgs: seq<Organization>): set<string> {
    set o | o in orgs :: o.name
  }

  /** A Go map lookup: the zero value when the key is absent. */
  function PolicyAt(m: map<string, Policy>, key: string): Policy {
    if key in m then m[key] else Policy("", "")
  }

  /** Remove every occurrence; nothing happens when there is none. */
  function Without<T(==)>(s: seq<T>, x: T): seq<T> {
    if |s| == 0 then [] else (if s[0] == x then [] else [s[0]]) + Without(s[1..], x)
  }

  /** Append unless already there. */
  function With<T(==)>(s: seq<T>, x: T): seq<T> {
    if x in s then s else s + [x]
  }

  lemma {:induction false} WithoutMembers<T>(s: seq<T>, x: T)
    ensures forall y :: y in Without(s, x) <==> y in s && y != x
  {
    if |s| > 0 {
      WithoutMembers(s[1..], x);
    }
  }

  lemma {:induction false} WithoutAbsent<T>(s: seq<T>, x: T)
    requires x !in s
    ensures Without(s, x) == s
  {
    if |s| > 0 {
      WithoutAbsent(s[1..], x);
    }
  }

  lemma {:induction false} WithoutAppend<T>(a: seq<T>, b: seq<T>, x: T)
    ensures Without(a + b, x) == Without(a, x) + Without(b, x)
  {
    if |a| == 0 {
      assert a + b == b;
    } else {
      assert (a + b)[1..] == a[1..] + b;
      WithoutAppend(a[1..], b, x);
    }
  }
}
