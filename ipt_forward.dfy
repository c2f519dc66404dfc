/** The iptables processors of the sections that publish container ports:
    wider-world-to-container (an IPv4 forward rule and DNAT rule per
    exposed port, fanned out per source CIDR, and an IPv6 input rule when
    asked for) and container DNAT. A port whose network, container or
    external interface is missing is skipped; the other ports still apply. */
module IptForward {
  import opened Wrappers
  import opened IptRule
  import opened IptRestore
  import opened IptCommands
  import opened Process
  import opened Config
  import opened IptSections
  import Text

  function AppendBuiltFn(d: Discriminant): Fields -> Result<Option<seq<IptablesRule>>> {
    fields => AppendBuiltOf(d, fields)
  }

  /** One copy of `base` per source CIDR, restricted to that source. */
  function CidrVariants(base: Fields, cidrs: seq<string>): (r: seq<Fields>)
    ensures |r| == |cidrs|
  {
    seq(|cidrs|, i requires 0 <= i < |cidrs| => base.(source := Some(cidrs[i])))
  }

  /** The `-j` target of a DNAT to `address:port`. */
  function DnatJump(address: string, port: nat): string {
    "DNAT --to-destination " + DnatTarget(address, port)
  }

  // ---------------------------------------------------------------------
  // Wider world to container

  /** The three rules of one exposed port: the forward rule to the
      container, the DNAT rule from the host port and the IPv6 input rule. */
  datatype PortRules = PortRules(forward: Fields, dnat: Fields, input: Fields)

  /** The forward rule accepts traffic to the container's address and port
      on its bridge; the DNAT rule sends the host port to that address and
      port; the input rule accepts the host port. All three match the
      port's protocol; none has an input interface yet. */
  function PortRulesOf(bridge: string, address: string, port: ExposePort): PortRules {
    var hostPort := Text.NatToString(port.hostPort);
    var containerPort := Text.NatToString(ContainerPort(port));
    PortRules(
      Fresh("filter", DfwForwardChain).(outInterface := Some(bridge), destination := Some(address),
                                        destinationPort := Some(containerPort), protocol := Some(port.family),
                                        jump := Some("ACCEPT")),
      Fresh("nat", DfwPreroutingChain).(destinationPort := Some(hostPort), protocol := Some(port.family),
                                        jump := Some(DnatJump(address, ContainerPort(port)))),
      Fresh("filter", DfwInputChain).(destinationPort := Some(hostPort), protocol := Some(port.family),
                                      jump := Some("ACCEPT")))
  }

  /** The rules with their input interface: the rule's own interface on
      the forward and DNAT rules, else the primary one on all three, else
      `None`. */
  function WithInterface(rules: PortRules, own: Option<string>, ctx: Context): Option<PortRules> {
    if own.Some? then
      Some(rules.(forward := rules.forward.(inInterface := own), dnat := rules.dnat.(inInterface := own)))
    else if Primary(ctx).Some? then
      var p := Primary(ctx);
      Some(PortRules(rules.forward.(inInterface := p), rules.dnat.(inInterface := p), rules.input.(inInterface := p)))
    else None
  }

  /** The IPv4 rules: a forward rule per source CIDR then a DNAT rule per
      source CIDR, or one of each open to every source. */
  function V4Rules(forward: Fields, dnat: Fields, cidrs: Option<seq<string>>): Result<seq<IptablesRule>> {
    if cidrs.Some? then
      var forwardRules :- ProcessAll(CidrVariants(forward, cidrs.value), AppendBuiltFn(Discriminant.V4));
      var dnatRules :- ProcessAll(CidrVariants(dnat, cidrs.value), AppendBuiltFn(Discriminant.V4));
      Ok(forwardRules + dnatRules)
    else
      match Render(forward)
      case Err(e) => Err(e)
      case Ok(f) =>
        match Render(dnat)
        case Err(e) => Err(e)
        case Ok(d) => Ok([AppendBuiltRule(Discriminant.V4, f), AppendBuiltRule(Discriminant.V4, d)])
  }

  /** The IPv6 rules, only when the port is exposed via IPv6: an input
      rule per source CIDR, or one open to every source. */
  function V6Rules(input: Fields, exposeViaIpv6: bool, cidrs: Option<seq<string>>): Result<seq<IptablesRule>> {
    if !exposeViaIpv6 then Ok([])
    else if cidrs.Some? then ProcessAll(CidrVariants(input, cidrs.value), AppendBuiltFn(Discriminant.V6))
    else
      match Render(input)
      case Err(e) => Err(e)
      case Ok(i) => Ok([AppendBuiltRule(Discriminant.V6, i)])
  }

  /** The rules of one exposed port with their input interface, `None`
      when the network, the container or the external interface is
      missing. */
  function WwtcPortRules(rule: WiderWorldToContainerRule, ctx: Context, port: ExposePort): Result<Option<PortRules>> {
    if rule.network !in ctx.networkMap then Ok(None)
    else
      var id := ctx.networkMap[rule.network].id;
      var bridge :- GetBridgeName(id);
      var dst :- GetNetworkForContainer(ctx, rule.dstContainer, id);
      if dst.None? then Ok(None)
      else Ok(WithInterface(PortRulesOf(bridge, Ipv4Of(dst.value), port), rule.externalNetworkInterface, ctx))
  }

  /** The rules of one exposed port: the IPv4 ones, then the IPv6 ones. */
  function WwtcPort(rule: WiderWorldToContainerRule, ctx: Context, port: ExposePort): Result<Option<seq<IptablesRule>>> {
    var rules :- WwtcPortRules(rule, ctx, port);
    if rules.None? then Ok(None)
    else
      var v4 :- V4Rules(rules.value.forward, rules.value.dnat, rule.sourceCidrV4);
      var v6 :- V6Rules(rules.value.input, rule.exposeViaIpv6, rule.sourceCidrV6);
      Ok(Some(v4 + v6))
  }

  function WwtcPortFn(rule: WiderWorldToContainerRule, ctx: Context): ExposePort -> Result<Option<seq<IptablesRule>>> {
    port => WwtcPort(rule, ctx, port)
  }

  /** `Process for WiderWorldToContainerRule`: every port's rules in order. */
  function WwtcRule(rule: WiderWorldToContainerRule, ctx: Context): Result<Option<seq<IptablesRule>>> {
    var rules :- ProcessAll(rule.exposePort, WwtcPortFn(rule, ctx));
    Ok(Some(rules))
  }

  function WwtcRuleFn(ctx: Context): WiderWorldToContainerRule -> Result<Option<seq<IptablesRule>>> {
    rule => WwtcRule(rule, ctx)
  }

  /** `Process for WiderWorldToContainer`: nothing without rules. */
  function WwtcSection(w: WiderWorldToContainer, ctx: Context): Result<Option<seq<IptablesRule>>> {
    if w.rules.None? then Ok(None)
    else
      var rules :- ProcessAll(w.rules.value, WwtcRuleFn(ctx));
      Ok(Some(rules))
  }

  /** A clone of the rule per source CIDR, restricted to that source,
      built and appended in order. */
  method ApplySourceCidrs(base: IptRule.Rule, cidrs: seq<string>, d: Discriminant) returns (r: Result<seq<IptablesRule>>)
    ensures r == ProcessAll(CidrVariants(base.Snapshot(), cidrs), AppendBuiltFn(d))
  {
    var variants := CidrVariants(base.Snapshot(), cidrs);
    var acc: seq<IptablesRule> := [];
    for i := 0 to |cidrs|
      invariant ProcessAll(variants[..i], AppendBuiltFn(d)) == Ok(acc)
    {
      ProcessAllStep(variants, i, AppendBuiltFn(d));
      var sub := EmitVariant(base, cidrs[i], d);
      assert variants[i] == base.Snapshot().(source := Some(cidrs[i]));
      if sub.Err? {
        ProcessAllPrefixError(variants, i + 1, AppendBuiltFn(d));
        return Err(sub.error);
      }
      acc := acc + Contribution(sub.value);
    }
    assert variants[..|cidrs|] == variants;
    return Ok(acc);
  }

  /** A clone of the rule restricted to one source CIDR, built and appended. */
  method EmitVariant(base: IptRule.Rule, cidr: string, d: Discriminant) returns (r: Result<Option<seq<IptablesRule>>>)
    ensures r == AppendBuiltOf(d, base.Snapshot().(source := Some(cidr)))
  {
    var variant := base.Clone();
    variant.SetSource(cidr);
    r := EmitBuilt(variant, d);
  }

  /** The IPv4 rules of a prepared port, as the engine adds them. */
  method EmitV4(forward: IptRule.Rule, dnat: IptRule.Rule, cidrs: Option<seq<string>>) returns (r: Result<seq<IptablesRule>>)
    ensures r == V4Rules(forward.Snapshot(), dnat.Snapshot(), cidrs)
  {
    if cidrs.Some? {
      var forwardRules :- ApplySourceCidrs(forward, cidrs.value, Discriminant.V4);
      var dnatRules :- ApplySourceCidrs(dnat, cidrs.value, Discriminant.V4);
      return Ok(forwardRules + dnatRules);
    }
    var forwardRule := forward.Build();
    match forwardRule {
      case Err(e) => return Err(e);
      case Ok(f) =>
        var dnatRule := dnat.Build();
        match dnatRule {
          case Err(e) => return Err(e);
          case Ok(n) => return Ok([AppendBuiltRule(Discriminant.V4, f), AppendBuiltRule(Discriminant.V4, n)]);
        }
    }
  }

  /** The IPv6 rules of a prepared port, as the engine adds them. */
  method EmitV6(input: IptRule.Rule, exposeViaIpv6: bool, cidrs: Option<seq<string>>) returns (r: Result<seq<IptablesRule>>)
    ensures r == V6Rules(input.Snapshot(), exposeViaIpv6, cidrs)
  {
    if !exposeViaIpv6 {
      return Ok([]);
    }
    if cidrs.Some? {
      r := ApplySourceCidrs(input, cidrs.value, Discriminant.V6);
      return;
    }
    var inputRule := input.Build();
    match inputRule {
      case Err(e) => return Err(e);
      case Ok(i) => return Ok([AppendBuiltRule(Discriminant.V6, i)]);
    }
  }

  /** Fills in the three rules of one port once the destination is known,
      as the engine does. */
  method FillPortRules(forward: IptRule.Rule, dnat: IptRule.Rule, input: IptRule.Rule,
                       bridge: string, address: string, port: ExposePort)
    requires forward != dnat && forward != input && dnat != input
    requires forward.Snapshot() == Fresh("filter", DfwForwardChain).(outInterface := Some(bridge))
    requires dnat.Snapshot() == Fresh("nat", DfwPreroutingChain)
    requires input.Snapshot() == Fresh("filter", DfwInputChain)
    modifies forward, dnat, input
    ensures forward.Snapshot() == PortRulesOf(bridge, address, port).forward
    ensures dnat.Snapshot() == PortRulesOf(bridge, address, port).dnat
    ensures input.Snapshot() == PortRulesOf(bridge, address, port).input
  {
    forward.SetDestination(address);
    var hostPort := Text.NatToString(port.hostPort);
    var containerPort := if port.containerPort.Some? then Text.NatToString(port.containerPort.value)
                         else Text.NatToString(port.hostPort);
    forward.SetDestinationPort(containerPort);
    dnat.SetDestinationPort(hostPort);
    assert containerPort == Text.NatToString(ContainerPort(port));
    assert "DNAT --to-destination " + address + ":" + containerPort == DnatJump(address, ContainerPort(port));
    dnat.SetJump("DNAT --to-destination " + address + ":" + containerPort);
    input.SetDestinationPort(hostPort);
    forward.SetProtocol(port.family);
    dnat.SetProtocol(port.family);
    input.SetProtocol(port.family);
    forward.SetJump("ACCEPT");
    input.SetJump("ACCEPT");
  }

  /** Sets the input interface of the three rules, as the engine does;
      false when there is none. */
  method SetPortInterfaces(forward: IptRule.Rule, dnat: IptRule.Rule, input: IptRule.Rule,
                           own: Option<string>, ctx: Context) returns (found: bool)
    requires forward != dnat && forward != input && dnat != input
    modifies forward, dnat, input
    ensures var rules := WithInterface(PortRules(old(forward.Snapshot()), old(dnat.Snapshot()), old(input.Snapshot())), own, ctx);
      found == rules.Some?
      && (found ==> PortRules(forward.Snapshot(), dnat.Snapshot(), input.Snapshot()) == rules.value)
  {
    if own.Some? {
      forward.SetInInterface(own.value);
      dnat.SetInInterface(own.value);
      return true;
    } else if Primary(ctx).Some? {
      var primary := Primary(ctx).value;
      forward.SetInInterface(primary);
      dnat.SetInInterface(primary);
      input.SetInInterface(primary);
      return true;
    }
    return false;
  }

  /** One exposed port, as the engine processes it. */
  method ProcessWwtcPort(rule: WiderWorldToContainerRule, ctx: Context, port: ExposePort) returns (r: Result<Option<seq<IptablesRule>>>)
    ensures r == WwtcPort(rule, ctx, port)
  {
    var forward := new IptRule.Rule("filter", DfwForwardChain);
    var dnat := new IptRule.Rule("nat", DfwPreroutingChain);
    var input := new IptRule.Rule("filter", DfwInputChain);
    if rule.network !in ctx.networkMap {
      return Ok(None);
    }
    var network := ctx.networkMap[rule.network];
    var bridgeName :- GetBridgeName(network.id);
    forward.SetOutInterface(bridgeName);
    var dstNetwork :- GetNetworkForContainer(ctx, rule.dstContainer, network.id);
    if dstNetwork.None? {
      return Ok(None);
    }
    FillPortRules(forward, dnat, input, bridgeName, Ipv4Of(dstNetwork.value), port);
    var found := SetPortInterfaces(forward, dnat, input, rule.externalNetworkInterface, ctx);
    if !found {
      return Ok(None);
    }
    var v4 :- EmitV4(forward, dnat, rule.sourceCidrV4);
    var v6 :- EmitV6(input, rule.exposeViaIpv6, rule.sourceCidrV6);
    return Ok(Some(v4 + v6));
  }

  /** `Process for WiderWorldToContainerRule`, as the engine runs it. */
  method ProcessWwtcRule(rule: WiderWorldToContainerRule, ctx: Context) returns (r: Result<Option<seq<IptablesRule>>>)
    ensures r == WwtcRule(rule, ctx)
  {
    var ports := rule.exposePort;
    var rules: seq<IptablesRule> := [];
    for i := 0 to |ports|
      invariant ProcessAll(ports[..i], WwtcPortFn(rule, ctx)) == Ok(rules)
    {
      ProcessAllStep(ports, i, WwtcPortFn(rule, ctx));
      var sub := ProcessWwtcPort(rule, ctx, ports[i]);
      if sub.Err? {
        ProcessAllPrefixError(ports, i + 1, WwtcPortFn(rule, ctx));
        return Err(sub.error);
      }
      rules := rules + Contribution(sub.value);
    }
    assert ports[..|ports|] == ports;
    return Ok(Some(rules));
  }

  method ProcessWwtcRules(rules: seq<WiderWorldToContainerRule>, ctx: Context) returns (r: Result<seq<IptablesRule>>)
    ensures r == ProcessAll(rules, WwtcRuleFn(ctx))
  {
    var acc: seq<IptablesRule> := [];
    for i := 0 to |rules|
      invariant ProcessAll(rules[..i], WwtcRuleFn(ctx)) == Ok(acc)
    {
      ProcessAllStep(rules, i, WwtcRuleFn(ctx));
      var sub := ProcessWwtcRule(rules[i], ctx);
      if sub.Err? {
        ProcessAllPrefixError(rules, i + 1, WwtcRuleFn(ctx));
        return Err(sub.error);
      }
      acc := acc + Contribution(sub.value);
    }
    assert rules[..|rules|] == rules;
    return Ok(acc);
  }

  /** `Process for WiderWorldToContainer`, as the engine runs it. */
  method ProcessWwtc(w: WiderWorldToContainer, ctx: Context) returns (r: Result<Option<seq<IptablesRule>>>)
    ensures r == WwtcSection(w, ctx)
  {
    if w.rules.None? {
      return Ok(None);
    }
    var rules :- ProcessWwtcRules(w.rules.value, ctx);
    return Ok(Some(rules));
  }

  // ---------------------------------------------------------------------
  // Container DNAT

  /** The source side of a container DNAT rule: nothing when the source
      network is not named or unknown, else its bridge as input interface
      and, when the named source container is attached, its address. */
  function CdnatSource(ctx: Context, network: Option<string>, container: Option<string>): Result<Fields> {
    var base := Fresh("nat", DfwPreroutingChain);
    if network.None? || network.value !in ctx.networkMap then Ok(base)
    else
      var id := ctx.networkMap[network.value].id;
      var bridge :- GetBridgeName(id);
      var src :- LookupContainer(ctx, container, id);
      var withIn := base.(inInterface := Some(bridge));
      if src.Found? then Ok(withIn.(source := Some(Ipv4Of(src.endpoint)))) else Ok(withIn)
  }

  /** The DNAT rule of one port, `None` when the destination network or
      container is missing. */
  function CdnatPortRule(rule: ContainerDnatRule, ctx: Context, port: ExposePort): Result<Option<Fields>> {
    var source :- CdnatSource(ctx, rule.srcNetwork, rule.srcContainer);
    if rule.dstNetwork !in ctx.networkMap then Ok(None)
    else
      var id := ctx.networkMap[rule.dstNetwork].id;
      var dst :- GetNetworkForContainer(ctx, rule.dstContainer, id);
      if dst.None? then Ok(None)
      else
        var bridge :- GetBridgeName(id);
        Ok(Some(source.(outInterface := Some(bridge), destinationPort := Some(Text.NatToString(ContainerPort(port))),
                        jump := Some(DnatJump(Ipv4Of(dst.value), ContainerPort(port))))))
  }

  function CdnatPort(rule: ContainerDnatRule, ctx: Context, port: ExposePort): Result<Option<seq<IptablesRule>>> {
    var fields :- CdnatPortRule(rule, ctx, port);
    if fields.None? then Ok(None) else AppendBuiltOf(Discriminant.V4, fields.value)
  }

  function CdnatPortFn(rule: ContainerDnatRule, ctx: Context): ExposePort -> Result<Option<seq<IptablesRule>>> {
    port => CdnatPort(rule, ctx, port)
  }

  /** `Process for ContainerDNATRule`: every port's rule in order. */
  function CdnatRule(rule: ContainerDnatRule, ctx: Context): Result<Option<seq<IptablesRule>>> {
    var rules :- ProcessAll(rule.exposePort, CdnatPortFn(rule, ctx));
    Ok(Some(rules))
  }

  function CdnatRuleFn(ctx: Context): ContainerDnatRule -> Result<Option<seq<IptablesRule>>> {
    rule => CdnatRule(rule, ctx)
  }

  /** `Process for ContainerDNAT`: nothing without rules. */
  function CdnatSection(c: ContainerDnat, ctx: Context): Result<Option<seq<IptablesRule>>> {
    if c.rules.None? then Ok(None)
    else
      var rules :- ProcessAll(c.rules.value, CdnatRuleFn(ctx));
      Ok(Some(rules))
  }

  /** The source side of a rule, set on a fresh prerouting rule. */
  method SetCdnatSource(iptRule: IptRule.Rule, ctx: Context, network: Option<string>, container: Option<string>)
    returns (r: Result<Fields>)
    requires iptRule.Snapshot() == Fresh("nat", DfwPreroutingChain)
    modifies iptRule
    ensures r == CdnatSource(ctx, network, container)
    ensures r.Ok? ==> iptRule.Snapshot() == r.value
  {
    if network.Some? && network.value in ctx.networkMap {
      var net := ctx.networkMap[network.value];
      var bridgeName :- GetBridgeName(net.id);
      iptRule.SetInInterface(bridgeName);
      if container.Some? {
        var srcNetwork :- GetNetworkForContainer(ctx, container.value, net.id);
        if srcNetwork.Some? {
          iptRule.SetSource(Ipv4Of(srcNetwork.value));
        }
      }
    }
    return Ok(iptRule.Snapshot());
  }

  method ProcessCdnatPort(rule: ContainerDnatRule, ctx: Context, port: ExposePort) returns (r: Result<Option<seq<IptablesRule>>>)
    ensures r == CdnatPort(rule, ctx, port)
  {
    var iptRule := new IptRule.Rule("nat", DfwPreroutingChain);
    var source :- SetCdnatSource(iptRule, ctx, rule.srcNetwork, rule.srcContainer);
    if rule.dstNetwork !in ctx.networkMap {
      return Ok(None);
    }
    var network := ctx.networkMap[rule.dstNetwork];
    var dstNetwork :- GetNetworkForContainer(ctx, rule.dstContainer, network.id);
    if dstNetwork.None? {
      return Ok(None);
    }
    var bridgeName :- GetBridgeName(network.id);
    iptRule.SetOutInterface(bridgeName);
    var destinationPort := if port.containerPort.Some? then Text.NatToString(port.containerPort.value)
                           else Text.NatToString(port.hostPort);
    iptRule.SetDestinationPort(destinationPort);
    assert destinationPort == Text.NatToString(ContainerPort(port));
    assert "DNAT --to-destination " + Ipv4Of(dstNetwork.value) + ":" + destinationPort
      == DnatJump(Ipv4Of(dstNetwork.value), ContainerPort(port));
    iptRule.SetJump("DNAT --to-destination " + Ipv4Of(dstNetwork.value) + ":" + destinationPort);
    r := EmitBuilt(iptRule, Discriminant.V4);
  }

  /** `Process for ContainerDNATRule`, as the engine runs it. */
  method ProcessCdnatRule(rule: ContainerDnatRule, ctx: Context) returns (r: Result<Option<seq<IptablesRule>>>)
    ensures r == CdnatRule(rule, ctx)
  {
    var ports := rule.exposePort;
    var rules: seq<IptablesRule> := [];
    for i := 0 to |ports|
      invariant ProcessAll(ports[..i], CdnatPortFn(rule, ctx)) == Ok(rules)
    {
      ProcessAllStep(ports, i, CdnatPortFn(rule, ctx));
      var sub := ProcessCdnatPort(rule, ctx, ports[i]);
      if sub.Err? {
        ProcessAllPrefixError(ports, i + 1, CdnatPortFn(rule, ctx));
        return Err(sub.error);
      }
      rules := rules + Contribution(sub.value);
    }
    assert ports[..|ports|] == ports;
    return Ok(Some(rules));
  }

  method ProcessCdnatRules(rules: seq<ContainerDnatRule>, ctx: Context) returns (r: Result<seq<IptablesRule>>)
    ensures r == ProcessAll(rules, CdnatRuleFn(ctx))
  {
    var acc: seq<IptablesRule> := [];
    for i := 0 to |rules|
      invariant ProcessAll(rules[..i], CdnatRuleFn(ctx)) == Ok(acc)
    {
      ProcessAllStep(rules, i, CdnatRuleFn(ctx));
      var sub := ProcessCdnatRule(rules[i], ctx);
      if sub.Err? {
        ProcessAllPrefixError(rules, i + 1, CdnatRuleFn(ctx));
        return Err(sub.error);
      }
      acc := acc + Contribution(sub.value);
    }
    assert rules[..|rules|] == rules;
    return Ok(acc);
  }

  /** `Process for ContainerDNAT`, as the engine runs it. */
  method ProcessCdnat(c: ContainerDnat, ctx: Context) returns (r: Result<Option<seq<IptablesRule>>>)
    ensures r == CdnatSection(c, ctx)
  {
    if c.rules.None? {
      return Ok(None);
    }
    var rules :- ProcessCdnatRules(c.rules.value, ctx);
    return Ok(Some(rules));
  }

  // ---------------------------------------------------------------------
  // Properties

  /** A fan-out over source CIDRs yields, in CIDR order, one rule per CIDR:
      the base rule restricted to that source, appended in family `d` to
      the base rule's chain. */
  lemma {:induction false} FanOutRules(base: Fields, cidrs: seq<string>, d: Discriminant)
    requires base.jump.Some?
    ensures var r := ProcessAll(CidrVariants(base, cidrs), AppendBuiltFn(d));
      r.Ok? && |r.value| == |cidrs|
      && forall j :: 0 <= j < |cidrs| ==>
           Render(base.(source := Some(cidrs[j]))).Ok?
           && r.value[j] == AppendBuiltRule(d, Render(base.(source := Some(cidrs[j]))).value)
  {
    var variants := CidrVariants(base, cidrs);
    forall k | 0 <= k < |cidrs|
      ensures Render(base.(source := Some(cidrs[k]))).Ok?
    {
      VariantRenders(base, cidrs[k]);
    }
    var out := seq(|cidrs|, j requires 0 <= j < |cidrs| => AppendBuiltRule(d, Render(base.(source := Some(cidrs[j]))).value));
    forall k | 0 <= k < |variants|
      ensures AppendBuiltFn(d)(variants[k]) == Ok(Some([out[k]]))
    {
    }
    ProcessAllEach(variants, AppendBuiltFn(d), out);
  }

  /** A rule with a jump still builds once restricted to a source. */
  lemma VariantRenders(base: Fields, cidr: string)
    requires base.jump.Some?
    ensures Render(base.(source := Some(cidr))).Ok?
  {
    RenderOutcome(base.(source := Some(cidr)));
  }

  /** Every rule of a fan-out is in family `d` and on the base rule's chain. */
  lemma FanOutTargets(base: Fields, cidrs: seq<string>, d: Discriminant, j: int)
    requires base.jump.Some? && 0 <= j < |cidrs|
    ensures var r := ProcessAll(CidrVariants(base, cidrs), AppendBuiltFn(d));
      r.Ok? && |r.value| == |cidrs| && DiscriminantOf(r.value[j]) == d
      && PolicyOrRuleOf(r.value[j]).Rule? && PolicyOrRuleOf(r.value[j]).table == base.table
      && PolicyOrRuleOf(r.value[j]).chain == base.chain
  {
    FanOutRules(base, cidrs, d);
    RenderOutcome(base.(source := Some(cidrs[j])));
  }

  /** How many IPv4 rules a port yields: a forward and a DNAT rule per
      source CIDR, or one of each. */
  function V4Count(cidrs: Option<seq<string>>): nat {
    if cidrs.Some? then 2 * |cidrs.value| else 2
  }

  /** How many IPv6 rules a port yields: none unless exposed via IPv6,
      then an input rule per source CIDR, or one. */
  function V6Count(exposeViaIpv6: bool, cidrs: Option<seq<string>>): nat {
    if !exposeViaIpv6 then 0 else if cidrs.Some? then |cidrs.value| else 1
  }

  /** A prepared port's rules always build: the IPv4 rules come first, the
      forward rules before the DNAT rules, all in family IPv4; the IPv6
      input rules follow. */
  lemma WwtcPortShape(rule: WiderWorldToContainerRule, ctx: Context, port: ExposePort)
    requires WwtcPortRules(rule, ctx, port).Ok? && WwtcPortRules(rule, ctx, port).value.Some?
    ensures WwtcPort(rule, ctx, port).Ok? && WwtcPort(rule, ctx, port).value.Some?
    ensures var out := WwtcPort(rule, ctx, port).value.value; var n4 := V4Count(rule.sourceCidrV4);
      |out| == n4 + V6Count(rule.exposeViaIpv6, rule.sourceCidrV6)
      && (forall j :: 0 <= j < n4 ==>
            DiscriminantOf(out[j]) == Discriminant.V4
            && PolicyOrRuleOf(out[j]).chain == if j < n4 / 2 then DfwForwardChain else DfwPreroutingChain)
      && (forall j :: n4 <= j < |out| ==>
            DiscriminantOf(out[j]) == Discriminant.V6 && PolicyOrRuleOf(out[j]).chain == DfwInputChain)
  {
    var rules := WwtcPortRules(rule, ctx, port).value.value;
    var v4 := V4RulesShape(rules.forward, rules.dnat, rule.sourceCidrV4);
    var v6 := V6RulesShape(rules.input, rule.exposeViaIpv6, rule.sourceCidrV6);
  }

  lemma V4RulesShape(forward: Fields, dnat: Fields, cidrs: Option<seq<string>>) returns (v4: seq<IptablesRule>)
    requires HasMatchOption(forward) && forward.jump.Some? && HasMatchOption(dnat) && dnat.jump.Some?
    ensures V4Rules(forward, dnat, cidrs) == Ok(v4)
    ensures var n4 := V4Count(cidrs);
      |v4| == n4
      && forall j :: 0 <= j < n4 ==>
           DiscriminantOf(v4[j]) == Discriminant.V4
           && PolicyOrRuleOf(v4[j]).chain == if j < n4 / 2 then forward.chain else dnat.chain
  {
    RenderOutcome(forward);
    RenderOutcome(dnat);
    if cidrs.Some? {
      var c := cidrs.value;
      FanOutRules(forward, c, Discriminant.V4);
      FanOutRules(dnat, c, Discriminant.V4);
      var f := ProcessAll(CidrVariants(forward, c), AppendBuiltFn(Discriminant.V4)).value;
      var n := ProcessAll(CidrVariants(dnat, c), AppendBuiltFn(Discriminant.V4)).value;
      v4 := f + n;
      forall j | 0 <= j < 2 * |c|
        ensures DiscriminantOf(v4[j]) == Discriminant.V4
        ensures PolicyOrRuleOf(v4[j]).chain == if j < |c| then forward.chain else dnat.chain
      {
        if j < |c| {
          FanOutTargets(forward, c, Discriminant.V4, j);
        } else {
          FanOutTargets(dnat, c, Discriminant.V4, j - |c|);
        }
      }
    } else {
      v4 := [AppendBuiltRule(Discriminant.V4, Render(forward).value), AppendBuiltRule(Discriminant.V4, Render(dnat).value)];
    }
  }

  lemma V6RulesShape(input: Fields, exposeViaIpv6: bool, cidrs: Option<seq<string>>) returns (v6: seq<IptablesRule>)
    requires HasMatchOption(input) && input.jump.Some?
    ensures V6Rules(input, exposeViaIpv6, cidrs) == Ok(v6)
    ensures |v6| == V6Count(exposeViaIpv6, cidrs)
      && forall j :: 0 <= j < |v6| ==> DiscriminantOf(v6[j]) == Discriminant.V6 && PolicyOrRuleOf(v6[j]).chain == input.chain
  {
    RenderOutcome(input);
    if !exposeViaIpv6 {
      v6 := [];
    } else if cidrs.Some? {
      FanOutRules(input, cidrs.value, Discriminant.V6);
      v6 := ProcessAll(CidrVariants(input, cidrs.value), AppendBuiltFn(Discriminant.V6)).value;
      forall j | 0 <= j < |v6|
        ensures DiscriminantOf(v6[j]) == Discriminant.V6 && PolicyOrRuleOf(v6[j]).chain == input.chain
      {
        FanOutTargets(input, cidrs.value, Discriminant.V6, j);
      }
    } else {
      v6 := [AppendBuiltRule(Discriminant.V6, Render(input).value)];
    }
  }

  /** The input interface of a port's rules is the external interface of
      the rule: the rule's own one on the forward and DNAT rules only, the
      primary one on all three; without either the port is skipped. */
  lemma WwtcInterfaces(bridge: string, address: string, port: ExposePort, own: Option<string>, ctx: Context)
    ensures var rules := WithInterface(PortRulesOf(bridge, address, port), own, ctx);
      (rules.Some? <==> ExternalInterface(own, ctx).Some?)
      && (rules.Some? ==>
            rules.value.forward.inInterface == ExternalInterface(own, ctx)
            && rules.value.dnat.inInterface == ExternalInterface(own, ctx)
            && rules.value.input.inInterface == (if own.Some? then None else Primary(ctx)))
  {
  }

  /** A port fails exactly when its network's bridge or its container's
      inspection fails; it is skipped exactly when its network is unknown,
      its container is not attached or there is no external interface. */
  lemma WwtcPortOutcome(rule: WiderWorldToContainerRule, ctx: Context, port: ExposePort)
    requires rule.network in ctx.networkMap
    ensures var id := ctx.networkMap[rule.network].id;
      (WwtcPort(rule, ctx, port).Err? <==>
         GetBridgeName(id).Err? || GetNetworkForContainer(ctx, rule.dstContainer, id).Err?)
      && (WwtcPort(rule, ctx, port) == Ok(None) <==>
            GetBridgeName(id).Ok? && GetNetworkForContainer(ctx, rule.dstContainer, id).Ok?
            && (GetNetworkForContainer(ctx, rule.dstContainer, id).value.None?
                || ExternalInterface(rule.externalNetworkInterface, ctx).None?))
  {
    var id := ctx.networkMap[rule.network].id;
    if GetBridgeName(id).Ok? && GetNetworkForContainer(ctx, rule.dstContainer, id).Ok?
       && GetNetworkForContainer(ctx, rule.dstContainer, id).value.Some? {
      var dst := GetNetworkForContainer(ctx, rule.dstContainer, id).value.value;
      WwtcInterfaces(GetBridgeName(id).value, Ipv4Of(dst), port, rule.externalNetworkInterface, ctx);
      if ExternalInterface(rule.externalNetworkInterface, ctx).Some? {
        WwtcPortShape(rule, ctx, port);
      }
    }
  }

  /** The DNAT rule of a port, once its interface is set, matches the
      interface, the port's protocol and the host port, and sends the
      traffic to the container's address and port. */
  lemma WwtcDnatText(bridge: string, address: string, port: ExposePort, iface: string)
    ensures var dnat := PortRulesOf(bridge, address, port).dnat.(inInterface := Some(iface));
      Args(dnat) == Ok(["-i", iface, "-p", port.family, "--dport", Text.NatToString(port.hostPort),
                        "-j", DnatJump(address, ContainerPort(port))])
      && dnat.chain == DfwPreroutingChain && dnat.table == "nat"
  {
    var dnat := PortRulesOf(bridge, address, port).dnat.(inInterface := Some(iface));
    var host := Text.NatToString(port.hostPort);
    assert MatchOptions(dnat) == ["-i", iface] + ["-p", port.family] + ["--dport", host];
    var a := Args(dnat).value;
    assert a == ["-i", iface] + ["-p", port.family] + ["--dport", host] + ["-j", DnatJump(address, ContainerPort(port))] + [];
    assert |a| == 8 && a[0] == "-i" && a[1] == iface && a[2] == "-p" && a[3] == port.family
      && a[4] == "--dport" && a[5] == host && a[6] == "-j" && a[7] == DnatJump(address, ContainerPort(port));
    assert a == ["-i", iface, "-p", port.family, "--dport", host, "-j", DnatJump(address, ContainerPort(port))];
  }

  /** The container DNAT ignores the port's protocol family, and the host
      port when a container port is given. */
  lemma CdnatPortIgnored(rule: ContainerDnatRule, ctx: Context, port: ExposePort, family: string, hostPort: U16)
    ensures CdnatPort(rule, ctx, port) == CdnatPort(rule, ctx, port.(family := family))
    ensures port.containerPort.Some? ==> CdnatPort(rule, ctx, port) == CdnatPort(rule, ctx, port.(hostPort := hostPort))
  {
  }

  /** A container DNAT rule leaves through the destination network's
      bridge, matches `tcp` on the container port and DNATs to the
      container's address and port; it is never negated. */
  lemma CdnatText(rule: ContainerDnatRule, ctx: Context, port: ExposePort)
    requires CdnatPortRule(rule, ctx, port).Ok? && CdnatPortRule(rule, ctx, port).value.Some?
    ensures var fields := CdnatPortRule(rule, ctx, port).value.value;
      var id := ctx.networkMap[rule.dstNetwork].id;
      var dst := GetNetworkForContainer(ctx, rule.dstContainer, id);
      var cport := Text.NatToString(ContainerPort(port));
      rule.dstNetwork in ctx.networkMap && dst.Ok? && dst.value.Some? && GetBridgeName(id).Ok?
      && !fields.notInInterface && !fields.notOutInterface
      && Args(fields).Ok?
      && Args(fields).value[|Args(fields).value| - 8..]
         == ["-o", GetBridgeName(id).value, "-p", "tcp", "--dport", cport, "-j", DnatJump(Ipv4Of(dst.value.value), ContainerPort(port))]
  {
    var source := CdnatSource(ctx, rule.srcNetwork, rule.srcContainer).value;
    CdnatSourceShape(ctx, rule.srcNetwork, rule.srcContainer);
    var fields := CdnatPortRule(rule, ctx, port).value.value;
    var id := ctx.networkMap[rule.dstNetwork].id;
    var dst := GetNetworkForContainer(ctx, rule.dstContainer, id).value.value;
    var bridge := GetBridgeName(id).value;
    var cport := Text.NatToString(ContainerPort(port));
    assert fields == source.(outInterface := Some(bridge), destinationPort := Some(cport),
                             jump := Some(DnatJump(Ipv4Of(dst), ContainerPort(port))));
    DnatArgsTail(fields, bridge, cport, DnatJump(Ipv4Of(dst), ContainerPort(port)));
  }

  /** The source side leaves every option but the source and the input
      interface unset. */
  lemma CdnatSourceShape(ctx: Context, network: Option<string>, container: Option<string>)
    requires CdnatSource(ctx, network, container).Ok?
    ensures var f := CdnatSource(ctx, network, container).value;
      !f.notInInterface && !f.notOutInterface && f.destination.None? && f.outInterface.None? && f.protocol.None?
      && f.sourcePort.None? && f.destinationPort.None? && f.filter.None? && f.jump.None? && f.comment.None?
  {
  }

  /** The last eight arguments of a rule leaving through `bridge` to a
      `tcp` port with a jump and no comment. */
  lemma DnatArgsTail(fields: Fields, bridge: string, cport: string, jump: string)
    requires fields.outInterface == Some(bridge) && !fields.notOutInterface && fields.protocol.None?
    requires fields.sourcePort.None? && fields.destinationPort == Some(cport) && fields.filter.None?
    requires fields.jump == Some(jump) && fields.comment.None?
    ensures Args(fields).Ok?
    ensures Args(fields).value[|Args(fields).value| - 8..] == ["-o", bridge, "-p", "tcp", "--dport", cport, "-j", jump]
  {
    var pre := Opt("-s", fields.source) + Opt("-d", fields.destination) + InterfaceOpt("-i", fields.inInterface, fields.notInInterface);
    var m := MatchOptions(fields);
    assert m == pre + ["-o", bridge] + ["-p", "tcp"] + ["--dport", cport];
    var tail := ["-o", bridge, "-p", "tcp", "--dport", cport, "-j", jump];
    assert Args(fields).value == m + ["-j", jump] + [];
    assert m + ["-j", jump] + [] == pre + tail;
    assert (pre + tail)[|pre + tail| - |tail|..] == tail;
  }

  /** A port whose destination network is unknown is skipped once the
      source side resolves; the other ports still apply. */
  lemma CdnatUnknownDestination(rule: ContainerDnatRule, ctx: Context, port: ExposePort)
    requires rule.dstNetwork !in ctx.networkMap
    requires CdnatSource(ctx, rule.srcNetwork, rule.srcContainer).Ok?
    ensures CdnatPort(rule, ctx, port) == Ok(None)
  {
  }
}
