/** From a FabricMainChannel spec to the configuration it asks for (`mapToConfigTX`). */
module ChannelSpec {
  import opened Wrappers
  import opened ChannelConfig

  datatype SpecConsenter = SpecConsenter(host: string, port: int, tlsCert: string)

  /** The spec; organizations, policies and application settings are those already mapped from its fields. */
  datatype Spec = Spec(
    ordererType: string, state: string, capabilities: seq<string>,
    consenters: seq<SpecConsenter>, raftOptions: RaftOptions,
    mapping: seq<BftConsenter>, smartOptions: string,
    application: WantedApplication, ordererOrgs: seq<Organization>, ordererPolicies: map<string, Policy>,
    batchSize: BatchSize, batchTimeout: string, ordererCapabilities: seq<string>)

  datatype SpecError = TooFewConsenters | UnsupportedType(name: string)

  const STATE_MAINTENANCE := "STATE_MAINTENANCE"
  const STATE_NORMAL := "STATE_NORMAL"
  const ETCDRAFT := "etcdraft"
  const BFT := "BFT"

  /** One TLS certificate serves as both the client's and the server's. */
  function ToConsenter(c: SpecConsenter): Consenter {
    Consenter(c.host, c.port, c.tlsCert, c.tlsCert)
  }

  function ToConsenters(cs: seq<SpecConsenter>): seq<Consenter> {
    seq(|cs|, i requires 0 <= i < |cs| => ToConsenter(cs[i]))
  }

  /** Any state but maintenance means normal; a BFT mapping of four consenters is still refused. */
  function ToWanted(s: Spec): Result<Wanted, SpecError> {
    var state := if s.state == STATE_MAINTENANCE then Maintenance else Normal;
    if s.ordererType == BFT then
      if |s.mapping| <= 4 then Err(TooFewConsenters) else Ok(WantedFrom(s, state, WantBft(s.smartOptions, s.mapping)))
    else if s.ordererType == ETCDRAFT then Ok(WantedFrom(s, state, WantRaft(ToConsenters(s.consenters), s.raftOptions)))
    else Err(UnsupportedType(s.ordererType))
  }

  function WantedFrom(s: Spec, state: ConsensusState, consensus: WantedConsensus): Wanted {
    Wanted(
      s.application,
      WantedOrderer(consensus, state, s.ordererOrgs, s.ordererPolicies, s.batchSize, s.batchTimeout,
                    s.ordererCapabilities),
      s.capabilities)
  }
}
