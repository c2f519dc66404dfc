/** The configuration the processors read: the global defaults, the
    backend-specific defaults of each backend, and the five rule sections.
    Only the fields the processors use are modelled. */
module Config {
  import opened Wrappers
  import opened NftTypes

  /** The Rust `u16` of port numbers. */
  type U16 = x: int | 0 <= x < 0x1_0000

  /** A published port: the host port, the container port (the host port
      when absent) and the protocol family (`tcp` or `udp`). */
  datatype ExposePort = ExposePort(hostPort: U16, containerPort: Option<U16>, family: string)

  /** The container port, defaulting to the host port. */
  function ContainerPort(port: ExposePort): U16 {
    port.containerPort.UnwrapOr(port.hostPort)
  }

  /** A custom nftables table whose input and forward chains DFW hooks into. */
  datatype Table = Table(name: string, chains: seq<string>)

  /** The `initialization` section: raw commands run before anything else. */
  datatype Initialization = Initialization(rules: Option<seq<string>>)

  /** The nftables backend defaults. */
  datatype NftDefaults = NftDefaults(customTables: Option<seq<Table>>, initialization: Option<Initialization>)

  /** The nftables backend defaults when the section is absent. */
  const NftDefaultsDefault: NftDefaults := NftDefaults(None, None)

  /** The iptables initialization rules per IP version: a table name and
      its raw rules, in the order the configured map iterates them. */
  datatype IptInitialization = IptInitialization(
    v4: Option<seq<(string, seq<string>)>>,
    v6: Option<seq<(string, seq<string>)>>)

  /** The iptables backend defaults. */
  datatype IptDefaults = IptDefaults(initialization: Option<IptInitialization>)

  datatype GlobalDefaults = GlobalDefaults(
    externalNetworkInterfaces: Option<seq<string>>,
    defaultDockerBridgeToHostPolicy: ChainPolicy,
    customTables: Option<seq<Table>>)

  datatype ContainerToContainerRule = ContainerToContainerRule(
    network: string,
    srcContainer: Option<string>,
    dstContainer: Option<string>,
    matches: Option<string>,
    verdict: RuleVerdict)

  datatype ContainerToContainer = ContainerToContainer(
    defaultPolicy: ChainPolicy,
    sameNetworkVerdict: Option<RuleVerdict>,
    rules: Option<seq<ContainerToContainerRule>>)

  datatype ContainerToWiderWorldRule = ContainerToWiderWorldRule(
    network: Option<string>,
    srcContainer: Option<string>,
    matches: Option<string>,
    verdict: RuleVerdict,
    externalNetworkInterface: Option<string>)

  datatype ContainerToWiderWorld = ContainerToWiderWorld(
    defaultPolicy: RuleVerdict,
    rules: Option<seq<ContainerToWiderWorldRule>>)

  datatype ContainerToHostRule = ContainerToHostRule(
    network: string,
    srcContainer: Option<string>,
    matches: Option<string>,
    verdict: RuleVerdict)

  datatype ContainerToHost = ContainerToHost(
    defaultPolicy: RuleVerdict,
    rules: Option<seq<ContainerToHostRule>>)

  datatype WiderWorldToContainerRule = WiderWorldToContainerRule(
    network: string,
    dstContainer: string,
    exposePort: seq<ExposePort>,
    externalNetworkInterface: Option<string>,
    exposeViaIpv6: bool,
    sourceCidrV4: Option<seq<string>>,
    sourceCidrV6: Option<seq<string>>)

  datatype WiderWorldToContainer = WiderWorldToContainer(rules: Option<seq<WiderWorldToContainerRule>>)

  datatype ContainerDnatRule = ContainerDnatRule(
    srcNetwork: Option<string>,
    srcContainer: Option<string>,
    dstNetwork: string,
    dstContainer: string,
    exposePort: seq<ExposePort>)

  datatype ContainerDnat = ContainerDnat(rules: Option<seq<ContainerDnatRule>>)

  /** The whole configuration, generic in the backend defaults; the
      top-level `initialization` is the deprecated place for the nftables
      initialization rules. */
  datatype Dfw<D> = Dfw(
    backendDefaults: Option<D>,
    initialization: Option<Initialization>,
    globalDefaults: GlobalDefaults,
    containerToContainer: Option<ContainerToContainer>,
    containerToWiderWorld: Option<ContainerToWiderWorld>,
    containerToHost: Option<ContainerToHost>,
    widerWorldToContainer: Option<WiderWorldToContainer>,
    containerDnat: Option<ContainerDnat>)
}
