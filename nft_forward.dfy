/** The nftables processors of the sections that publish container ports:
    wider-world-to-container (a forward rule, a DNAT rule and, for IPv6,
    a mark rule per exposed port, fanned out per source CIDR) and
    container DNAT. A port whose network, container or external interface
    is missing drops the whole rule. */
module NftForward {
  import opened Wrappers
  import opened NftTypes
  import opened NftCommands
  import opened NftRule
  import opened Process
  import opened Config
  import opened NftSections
  import Text

  // ---------------------------------------------------------------------
  // Ports

  /** Every port's contribution in order; the first port that yields no
      rules stops the whole rule with no rules at all. */
  function AllPorts<T>(items: seq<T>, f: T -> Result<Option<seq<string>>>): Result<Option<seq<string>>>
  {
    if |items| == 0 then Ok(Some([]))
    else
      var init :- AllPorts(items[..|items| - 1], f);
      if init.None? then Ok(None)
      else
        var last :- f(items[|items| - 1]);
        if last.None? then Ok(None) else Ok(Some(init.value + last.value))
  }

  lemma AllPortsStep<T>(items: seq<T>, i: int, f: T -> Result<Option<seq<string>>>)
    requires 0 <= i < |items|
    ensures AllPorts(items[..i + 1], f) ==
      (if AllPorts(items[..i], f).Err? || AllPorts(items[..i], f).value.None? then AllPorts(items[..i], f)
       else if f(items[i]).Err? then Err(f(items[i]).error)
       else if f(items[i]).value.None? then Ok(None)
       else Ok(Some(AllPorts(items[..i], f).value.value + f(items[i]).value.value)))
  {
    assert items[..i + 1][..i] == items[..i];
    assert items[..i + 1][i] == items[i];
  }

  /** Once a prefix fails or stops, the whole list does the same. */
  lemma {:induction false} AllPortsPrefixStop<T>(items: seq<T>, k: int, f: T -> Result<Option<seq<string>>>)
    requires 0 <= k <= |items|
    requires AllPorts(items[..k], f).Err? || AllPorts(items[..k], f).value.None?
    ensures AllPorts(items, f) == AllPorts(items[..k], f)
  {
    if k == |items| {
      assert items[..k] == items;
    } else {
      var n := |items| - 1;
      assert items[..n][..k] == items[..k];
      AllPortsPrefixStop(items[..n], k, f);
    }
  }

  /** A port that yields no rules, after ports that all succeed, drops
      the whole rule: earlier ports' rules are discarded too. */
  lemma {:induction false} AllPortsStopAt<T>(items: seq<T>, k: int, f: T -> Result<Option<seq<string>>>)
    requires 0 <= k < |items| && f(items[k]) == Ok(None)
    requires forall j :: 0 <= j < k ==> f(items[j]).Ok?
    ensures AllPorts(items, f) == Ok(None)
  {
    AllPortsPrefixOk(items, k, f);
    AllPortsStep(items, k, f);
    AllPortsPrefixStop(items, k + 1, f);
  }

  lemma {:induction false} AllPortsPrefixOk<T>(items: seq<T>, k: int, f: T -> Result<Option<seq<string>>>)
    requires 0 <= k <= |items|
    requires forall j :: 0 <= j < k ==> f(items[j]).Ok?
    ensures AllPorts(items[..k], f).Ok?
  {
    if k > 0 {
      AllPortsPrefixOk(items, k - 1, f);
      AllPortsStep(items, k - 1, f);
    }
  }

  /** With every port contributing, the rule is their concatenation. */
  lemma {:induction false} AllPortsCount<T>(items: seq<T>, f: T -> Result<Option<seq<string>>>, k: nat)
    requires forall x :: x in items && f(x).Ok? && f(x).value.Some? ==> |f(x).value.value| == k
    ensures AllPorts(items, f).Ok? && AllPorts(items, f).value.Some? ==> |AllPorts(items, f).value.value| == k * |items|
  {
    if |items| > 0 {
      var n := |items| - 1;
      assert forall x :: x in items[..n] ==> x in items;
      AllPortsCount(items[..n], f, k);
      var all := AllPorts(items, f);
      if all.Ok? && all.value.Some? {
        var init := AllPorts(items[..n], f);
        var last := f(items[n]);
        assert init.Ok? && init.value.Some? && last.Ok? && last.value.Some?;
        assert all.value.value == init.value.value + last.value.value;
        assert items[n] in items;
        assert k * |items| == k * n + k;
      }
    }
  }

  // ---------------------------------------------------------------------
  // Wider world to container

  /** The three rules of one exposed port: the forward rule to the
      container, the DNAT rule from the host port and the IPv6 mark rule. */
  datatype PortRules = PortRules(forward: Fields, dnat: Fields, mark: Fields)

  /** The rules of one port with their external interface set, `None` when
      the network, the container or the external interface is missing. */
  function WwtcPortRules(rule: WiderWorldToContainerRule, ctx: Context, port: ExposePort): Result<Option<PortRules>> {
    if rule.network !in ctx.networkMap then Ok(None)
    else
      var id := ctx.networkMap[rule.network].id;
      var bridge :- GetBridgeName(id);
      var dst :- GetNetworkForContainer(ctx, rule.dstContainer, id);
      if dst.None? then Ok(None)
      else
        var iface := ExternalInterface(rule.externalNetworkInterface, ctx);
        if iface.None? then Ok(None)
        else Ok(Some(PortRulesOf(bridge, Ipv4Of(dst.value), port, iface.value)))
  }

  /** The forward rule accepts traffic from the external interface to the
      container's address and port on its bridge; the DNAT rule sends the
      host port to that address and port; the mark rule matches the host
      port. All three match the port's protocol. */
  function PortRulesOf(bridge: string, address: string, port: ExposePort, iface: string): PortRules {
    var hostPort := Text.NatToString(port.hostPort);
    var containerPort := Text.NatToString(ContainerPort(port));
    PortRules(
      Unset.(inInterface := Some(iface), outInterface := Some(bridge), destinationAddress := Some(address),
             protocol := Some(port.family), destinationPort := Some(containerPort), verdict := Some(RuleVerdict.Accept)),
      Unset.(inInterface := Some(iface), protocol := Some(port.family), destinationPort := Some(hostPort),
             dnat := Some(DnatTarget(address, ContainerPort(port)))),
      Unset.(inInterface := Some(iface), protocol := Some(port.family), destinationPort := Some(hostPort)))
  }

  /** One copy of `base` per source CIDR, restricted to that source. */
  function CidrVariants(base: Fields, cidrs: seq<string>, v6: bool): (r: seq<Fields>)
    ensures |r| == |cidrs|
  {
    seq(|cidrs|, i requires 0 <= i < |cidrs| =>
      if v6 then base.(sourceAddressV6 := Some(cidrs[i])) else base.(sourceAddress := Some(cidrs[i])))
  }

  /** The IPv4 source restriction: a forward rule per CIDR, then a DNAT
      rule per CIDR. */
  function SourceCidrsV4(rules: PortRules, cidrs: seq<string>): Result<seq<string>> {
    var forward :- ProcessAll(CidrVariants(rules.forward, cidrs, false), AddRuleFn(Inet, "forward"));
    var dnat :- ProcessAll(CidrVariants(rules.dnat, cidrs, false), AddRuleFn(Ip, "prerouting"));
    Ok(forward + dnat)
  }

  /** The IPv6 source restriction: a mark rule per CIDR. */
  function SourceCidrsV6(rules: PortRules, cidrs: seq<string>): Result<seq<string>> {
    ProcessAll(CidrVariants(rules.mark, cidrs, true), AddRuleFn(Ip6, "prerouting"))
  }

  /** The rules open to every source: forward, DNAT and, for IPv6, mark. */
  function OpenRules(rules: PortRules, ipv6: bool): Result<seq<string>> {
    match Render(rules.forward)
    case Err(e) => Err(e)
    case Ok(forward) =>
      match Render(rules.dnat)
      case Err(e) => Err(e)
      case Ok(dnat) =>
        match Render(rules.mark)
        case Err(e) => Err(e)
        case Ok(mark) =>
          Ok([AddRule(Inet, "dfw", "forward", forward), AddRule(Ip, "dfw", "prerouting", dnat)]
             + (if ipv6 then [AddRule(Ip6, "dfw", "prerouting", mark)] else []))
  }

  /** The commands of one exposed port once its rules are prepared: the
      source-restricted rules when CIDRs are given, else the open ones. */
  function WwtcPortCommands(rule: WiderWorldToContainerRule, rules: PortRules): Result<seq<string>> {
    var v4 :- if rule.sourceCidrV4.Some? then SourceCidrsV4(rules, rule.sourceCidrV4.value) else Ok([]);
    var v6 :- if rule.exposeViaIpv6 && rule.sourceCidrV6.Some? then SourceCidrsV6(rules, rule.sourceCidrV6.value) else Ok([]);
    if rule.sourceCidrV4.Some? || rule.sourceCidrV6.Some? then Ok(v4 + v6)
    else OpenRules(rules, rule.exposeViaIpv6)
  }

  /** The commands of one exposed port. */
  function WwtcPort(rule: WiderWorldToContainerRule, ctx: Context, port: ExposePort): Result<Option<seq<string>>> {
    var rules :- WwtcPortRules(rule, ctx, port);
    if rules.None? then Ok(None)
    else
      match WwtcPortCommands(rule, rules.value)
      case Err(e) => Err(e)
      case Ok(commands) => Ok(Some(commands))
  }

  function WwtcPortFn(rule: WiderWorldToContainerRule, ctx: Context): ExposePort -> Result<Option<seq<string>>> {
    port => WwtcPort(rule, ctx, port)
  }

  /** `Process for WiderWorldToContainerRule`. */
  function WwtcRule(rule: WiderWorldToContainerRule, ctx: Context): Result<Option<seq<string>>> {
    AllPorts(rule.exposePort, WwtcPortFn(rule, ctx))
  }

  function WwtcRuleFn(ctx: Context): WiderWorldToContainerRule -> Result<Option<seq<string>>> {
    rule => WwtcRule(rule, ctx)
  }

  /** `Process for WiderWorldToContainer`: nothing without rules. */
  function WwtcSection(w: WiderWorldToContainer, ctx: Context): Result<Option<seq<string>>> {
    if w.rules.None? then Ok(None)
    else
      var rules :- ProcessAll(w.rules.value, WwtcRuleFn(ctx));
      Ok(Some(rules))
  }

  /** `apply_source_cidrs_v4`/`_v6`: a copy of the builder per CIDR,
      restricted to it, every copy built before any is added. */
  method ApplySourceCidrs(b: RuleBuilder, cidrs: seq<string>, v6: bool, f: Family, chain: string) returns (r: Result<seq<string>>)
    ensures r == ProcessAll(CidrVariants(b.Snapshot(), cidrs, v6), AddRuleFn(f, chain))
  {
    ghost var variants := CidrVariants(b.Snapshot(), cidrs, v6);
    var acc: seq<string> := [];
    for i := 0 to |cidrs|
      invariant ProcessAll(variants[..i], AddRuleFn(f, chain)) == Ok(acc)
    {
      ProcessAllStep(variants, i, AddRuleFn(f, chain));
      var copy := b.Clone();
      if v6 {
        copy.SetSourceAddressV6(cidrs[i]);
      } else {
        copy.SetSourceAddress(cidrs[i]);
      }
      var sub := EmitRule(copy, f, chain);
      match sub {
        case Err(e) => return Err(e);
        case Ok(added) => acc := acc + Contribution(added);
      }
    }
    assert variants[..|cidrs|] == variants;
    return Ok(acc);
  }

  /** The rules open to every source, as the engine builds them. */
  method BuildOpenRules(forward: RuleBuilder, dnat: RuleBuilder, mark: RuleBuilder, ipv6: bool) returns (r: Result<seq<string>>)
    ensures r == OpenRules(PortRules(forward.Snapshot(), dnat.Snapshot(), mark.Snapshot()), ipv6)
  {
    var forwardRule := forward.Build();
    var dnatRule := dnat.Build();
    var markRule := mark.Build();
    match forwardRule {
      case Err(e) => return Err(e);
      case Ok(forwardText) =>
        match dnatRule {
          case Err(e) => return Err(e);
          case Ok(dnatText) =>
            match markRule {
              case Err(e) => return Err(e);
              case Ok(markText) =>
                var rules := [AddRule(Inet, "dfw", "forward", forwardText), AddRule(Ip, "dfw", "prerouting", dnatText)];
                if ipv6 {
                  rules := rules + [AddRule(Ip6, "dfw", "prerouting", markText)];
                } else {
                  assert rules + [] == rules;
                }
                return Ok(rules);
            }
        }
    }
  }

  /** Fills in the three builders of one exposed port, as the engine does
      once the container's address and the external interface are known. */
  method FillPortRules(forward: RuleBuilder, dnat: RuleBuilder, mark: RuleBuilder, bridge: string, address: string, port: ExposePort, iface: string)
    requires forward != dnat && dnat != mark && forward != mark
    requires forward.Snapshot() == Unset && dnat.Snapshot() == Unset && mark.Snapshot() == Unset
    modifies forward, dnat, mark
    ensures PortRules(forward.Snapshot(), dnat.Snapshot(), mark.Snapshot()) == PortRulesOf(bridge, address, port, iface)
  {
    FillForward(forward, bridge, address, port, iface);
    FillDnat(dnat, address, port, iface);
    FillMark(mark, port, iface);
  }

  /** The forward rule of one port: to the container's address and port
      on its bridge, accepted. */
  method FillForward(forward: RuleBuilder, bridge: string, address: string, port: ExposePort, iface: string)
    requires forward.Snapshot() == Unset
    modifies forward
    ensures forward.Snapshot() == PortRulesOf(bridge, address, port, iface).forward
  {
    var containerPort := if port.containerPort.Some? then Text.NatToString(port.containerPort.value) else Text.NatToString(port.hostPort);
    forward.SetOutInterface(bridge);
    forward.SetDestinationAddress(address);
    forward.SetDestinationPort(containerPort);
    forward.SetProtocol(port.family);
    forward.SetVerdict(RuleVerdict.Accept);
    forward.SetInInterface(iface);
  }

  /** The DNAT rule of one port: the host port to the container's address
      and port. */
  method FillDnat(dnat: RuleBuilder, address: string, port: ExposePort, iface: string)
    requires dnat.Snapshot() == Unset
    modifies dnat
    ensures dnat.Snapshot() == PortRulesOf("", address, port, iface).dnat
  {
    var hostPort := Text.NatToString(port.hostPort);
    var containerPort := if port.containerPort.Some? then Text.NatToString(port.containerPort.value) else Text.NatToString(port.hostPort);
    dnat.SetDestinationPort(hostPort);
    dnat.SetDnat(address + ":" + containerPort);
    dnat.SetProtocol(port.family);
    dnat.SetInInterface(iface);
  }

  /** The mark rule of one port: the host port. */
  method FillMark(mark: RuleBuilder, port: ExposePort, iface: string)
    requires mark.Snapshot() == Unset
    modifies mark
    ensures mark.Snapshot() == PortRulesOf("", "", port, iface).mark
  {
    var hostPort := Text.NatToString(port.hostPort);
    mark.SetDestinationPort(hostPort);
    mark.SetProtocol(port.family);
    mark.SetInInterface(iface);
  }

  /** The commands of one prepared port, as the engine adds them. */
  method PortCommands(rule: WiderWorldToContainerRule, forward: RuleBuilder, dnat: RuleBuilder, mark: RuleBuilder)
    returns (r: Result<seq<string>>)
    ensures r == WwtcPortCommands(rule, PortRules(forward.Snapshot(), dnat.Snapshot(), mark.Snapshot()))
  {
    var v4: seq<string> := [];
    if rule.sourceCidrV4.Some? {
      var forwardRules :- ApplySourceCidrs(forward, rule.sourceCidrV4.value, false, Inet, "forward");
      var dnatRules :- ApplySourceCidrs(dnat, rule.sourceCidrV4.value, false, Ip, "prerouting");
      v4 := forwardRules + dnatRules;
    }
    var v6: seq<string> := [];
    if rule.exposeViaIpv6 && rule.sourceCidrV6.Some? {
      v6 :- ApplySourceCidrs(mark, rule.sourceCidrV6.value, true, Ip6, "prerouting");
    }
    if rule.sourceCidrV4.Some? || rule.sourceCidrV6.Some? {
      return Ok(v4 + v6);
    }
    r := BuildOpenRules(forward, dnat, mark, rule.exposeViaIpv6);
  }

  /** One exposed port, as the engine processes it. */
  method ProcessWwtcPort(rule: WiderWorldToContainerRule, ctx: Context, port: ExposePort) returns (r: Result<Option<seq<string>>>)
    ensures r == WwtcPort(rule, ctx, port)
  {
    var forward := new RuleBuilder();
    var dnat := new RuleBuilder();
    var mark := new RuleBuilder();
    if rule.network !in ctx.networkMap {
      return Ok(None);
    }
    var network := ctx.networkMap[rule.network];
    var bridgeName :- GetBridgeName(network.id);
    var dstNetwork :- GetNetworkForContainer(ctx, rule.dstContainer, network.id);
    if dstNetwork.None? {
      return Ok(None);
    }
    var iface: string;
    if rule.externalNetworkInterface.Some? {
      iface := rule.externalNetworkInterface.value;
    } else if Primary(ctx).Some? {
      iface := Primary(ctx).value;
    } else {
      return Ok(None);
    }
    FillPortRules(forward, dnat, mark, bridgeName, Ipv4Of(dstNetwork.value), port, iface);
    var commands := PortCommands(rule, forward, dnat, mark);
    match commands {
      case Err(e) => return Err(e);
      case Ok(c) => return Ok(Some(c));
    }
  }

  /** `Process for WiderWorldToContainerRule`, as the engine runs it. */
  method ProcessWwtcRule(rule: WiderWorldToContainerRule, ctx: Context) returns (r: Result<Option<seq<string>>>)
    ensures r == WwtcRule(rule, ctx)
  {
    var ports := rule.exposePort;
    var rules: seq<string> := [];
    for i := 0 to |ports|
      invariant AllPorts(ports[..i], WwtcPortFn(rule, ctx)) == Ok(Some(rules))
    {
      AllPortsStep(ports, i, WwtcPortFn(rule, ctx));
      var sub := ProcessWwtcPort(rule, ctx, ports[i]);
      if sub.Err? || sub.value.None? {
        AllPortsPrefixStop(ports, i + 1, WwtcPortFn(rule, ctx));
        return sub;
      }
      rules := rules + sub.value.value;
    }
    assert ports[..|ports|] == ports;
    return Ok(Some(rules));
  }

  method ProcessWwtcRules(rules: seq<WiderWorldToContainerRule>, ctx: Context) returns (r: Result<seq<string>>)
    ensures r == ProcessAll(rules, WwtcRuleFn(ctx))
  {
    var acc: seq<string> := [];
    for i := 0 to |rules|
      invariant ProcessAll(rules[..i], WwtcRuleFn(ctx)) == Ok(acc)
    {
      ProcessAllStep(rules, i, WwtcRuleFn(ctx));
      var sub := ProcessWwtcRule(rules[i], ctx);
      if sub.Err? {
        ProcessAllPrefixError(rules, i + 1, WwtcRuleFn(ctx));
        return Err(sub.error);
      }
      acc := acc + Contribution(sub.value);
    }
    assert rules[..|rules|] == rules;
    return Ok(acc);
  }

  /** `Process for WiderWorldToContainer`, as the engine runs it. */
  method ProcessWwtc(w: WiderWorldToContainer, ctx: Context) returns (r: Result<Option<seq<string>>>)
    ensures r == WwtcSection(w, ctx)
  {
    if w.rules.None? {
      return Ok(None);
    }
    var rules :- ProcessWwtcRules(w.rules.value, ctx);
    return Ok(Some(rules));
  }

  // ---------------------------------------------------------------------
  // Container DNAT

  /** The DNAT rule of one port, `None` when the destination network or
      container is missing. */
  function CdnatPortRule(rule: ContainerDnatRule, ctx: Context, port: ExposePort): Result<Option<Fields>> {
    var source :- SourceSide(ctx, rule.srcNetwork, rule.srcContainer);
    if rule.dstNetwork !in ctx.networkMap then Ok(None)
    else
      var id := ctx.networkMap[rule.dstNetwork].id;
      var dst :- GetNetworkForContainer(ctx, rule.dstContainer, id);
      if dst.None? then Ok(None)
      else
        var bridge :- GetBridgeName(id);
        Ok(Some(source.(outInterface := Some(bridge), destinationPort := Some(Text.NatToString(ContainerPort(port))),
                        dnat := Some(DnatTarget(Ipv4Of(dst.value), ContainerPort(port))))))
  }

  function CdnatPort(rule: ContainerDnatRule, ctx: Context, port: ExposePort): Result<Option<seq<string>>> {
    var fields :- CdnatPortRule(rule, ctx, port);
    if fields.None? then Ok(None) else AddRuleOf(Ip, "prerouting", fields.value)
  }

  function CdnatPortFn(rule: ContainerDnatRule, ctx: Context): ExposePort -> Result<Option<seq<string>>> {
    port => CdnatPort(rule, ctx, port)
  }

  /** `Process for ContainerDNATRule`. */
  function CdnatRule(rule: ContainerDnatRule, ctx: Context): Result<Option<seq<string>>> {
    AllPorts(rule.exposePort, CdnatPortFn(rule, ctx))
  }

  function CdnatRuleFn(ctx: Context): ContainerDnatRule -> Result<Option<seq<string>>> {
    rule => CdnatRule(rule, ctx)
  }

  /** `Process for ContainerDNAT`: nothing without rules. */
  function CdnatSection(c: ContainerDnat, ctx: Context): Result<Option<seq<string>>> {
    if c.rules.None? then Ok(None)
    else
      var rules :- ProcessAll(c.rules.value, CdnatRuleFn(ctx));
      Ok(Some(rules))
  }

  method ProcessCdnatPort(rule: ContainerDnatRule, ctx: Context, port: ExposePort) returns (r: Result<Option<seq<string>>>)
    ensures r == CdnatPort(rule, ctx, port)
  {
    var nftRule := new RuleBuilder();
    if rule.srcNetwork.Some? && rule.srcNetwork.value in ctx.networkMap {
      var network := ctx.networkMap[rule.srcNetwork.value];
      var bridgeName :- GetBridgeName(network.id);
      nftRule.SetInInterface(bridgeName);
      if rule.srcContainer.Some? {
        var srcNetwork :- GetNetworkForContainer(ctx, rule.srcContainer.value, network.id);
        if srcNetwork.Some? {
          nftRule.SetSourceAddress(Ipv4Of(srcNetwork.value));
        }
      }
    }
    if rule.dstNetwork !in ctx.networkMap {
      return Ok(None);
    }
    var network := ctx.networkMap[rule.dstNetwork];
    var dstNetwork :- GetNetworkForContainer(ctx, rule.dstContainer, network.id);
    if dstNetwork.None? {
      return Ok(None);
    }
    var bridgeName :- GetBridgeName(network.id);
    nftRule.SetOutInterface(bridgeName);
    var destinationPort := if port.containerPort.Some? then Text.NatToString(port.containerPort.value) else Text.NatToString(port.hostPort);
    nftRule.SetDestinationPort(destinationPort);
    nftRule.SetDnat(Ipv4Of(dstNetwork.value) + ":" + destinationPort);
    r := EmitRule(nftRule, Ip, "prerouting");
  }

  /** `Process for ContainerDNATRule`, as the engine runs it. */
  method ProcessCdnatRule(rule: ContainerDnatRule, ctx: Context) returns (r: Result<Option<seq<string>>>)
    ensures r == CdnatRule(rule, ctx)
  {
    var ports := rule.exposePort;
    var rules: seq<string> := [];
    for i := 0 to |ports|
      invariant AllPorts(ports[..i], CdnatPortFn(rule, ctx)) == Ok(Some(rules))
    {
      AllPortsStep(ports, i, CdnatPortFn(rule, ctx));
      var sub := ProcessCdnatPort(rule, ctx, ports[i]);
      if sub.Err? || sub.value.None? {
        AllPortsPrefixStop(ports, i + 1, CdnatPortFn(rule, ctx));
        return sub;
      }
      rules := rules + sub.value.value;
    }
    assert ports[..|ports|] == ports;
    return Ok(Some(rules));
  }

  method ProcessCdnatRules(rules: seq<ContainerDnatRule>, ctx: Context) returns (r: Result<seq<string>>)
    ensures r == ProcessAll(rules, CdnatRuleFn(ctx))
  {
    var acc: seq<string> := [];
    for i := 0 to |rules|
      invariant ProcessAll(rules[..i], CdnatRuleFn(ctx)) == Ok(acc)
    {
      ProcessAllStep(rules, i, CdnatRuleFn(ctx));
      var sub := ProcessCdnatRule(rules[i], ctx);
      if sub.Err? {
        ProcessAllPrefixError(rules, i + 1, CdnatRuleFn(ctx));
        return Err(sub.error);
      }
      acc := acc + Contribution(sub.value);
    }
    assert rules[..|rules|] == rules;
    return Ok(acc);
  }

  /** `Process for ContainerDNAT`, as the engine runs it. */
  method ProcessCdnat(c: ContainerDnat, ctx: Context) returns (r: Result<Option<seq<string>>>)
    ensures r == CdnatSection(c, ctx)
  {
    if c.rules.None? {
      return Ok(None);
    }
    var rules :- ProcessCdnatRules(c.rules.value, ctx);
    return Ok(Some(rules));
  }

  // ---------------------------------------------------------------------
  // Properties

  /** The command adds a rule to `chain` of the `dfw` table of family `f`. */
  predicate AddsTo(cmd: string, f: Family, chain: string) {
    var w := Words(cmd);
    |w| >= 5 && w[..5] == ["add", "rule", FamilyName(f), "dfw", chain]
  }

  lemma AddRuleAddsTo(f: Family, chain: string, text: string)
    requires IsWord(chain)
    ensures AddsTo(AddRule(f, "dfw", chain, text), f, chain)
  {
    AddRuleWords(f, "dfw", chain, text);
  }

  /** Every command of a fan-out adds to the fan-out's chain. */
  lemma {:induction false} FanOutAddsTo(fields: seq<Fields>, f: Family, chain: string)
    requires IsWord(chain)
    ensures ProcessAll(fields, AddRuleFn(f, chain)).Ok? ==>
      forall c :: c in ProcessAll(fields, AddRuleFn(f, chain)).value ==> AddsTo(c, f, chain)
  {
    if |fields| > 0 && ProcessAll(fields, AddRuleFn(f, chain)).Ok? {
      var n := |fields| - 1;
      FanOutAddsTo(fields[..n], f, chain);
      FanOutLast(fields, f, chain);
      AddRuleAddsTo(f, chain, Render(fields[n]).value);
    }
  }

  /** A successful fan-out is the fan-out of all but the last variant,
      then the last variant's rule. */
  lemma FanOutLast(fields: seq<Fields>, f: Family, chain: string)
    requires |fields| > 0 && ProcessAll(fields, AddRuleFn(f, chain)).Ok?
    ensures var n := |fields| - 1;
      ProcessAll(fields[..n], AddRuleFn(f, chain)).Ok? && Render(fields[n]).Ok?
      && ProcessAll(fields, AddRuleFn(f, chain)).value
         == ProcessAll(fields[..n], AddRuleFn(f, chain)).value + [AddRule(f, "dfw", chain, Render(fields[n]).value)]
  {
    var n := |fields| - 1;
    ProcessAllStep(fields, n, AddRuleFn(f, chain));
    assert fields[..n + 1] == fields;
  }

  /** A fan-out adds one rule per variant. */
  lemma FanOutCount(fields: seq<Fields>, f: Family, chain: string)
    ensures ProcessAll(fields, AddRuleFn(f, chain)).Ok? ==> |ProcessAll(fields, AddRuleFn(f, chain)).value| == |fields|
  {
    ProcessAllCount(fields, AddRuleFn(f, chain), 1);
  }

  /** Where the commands of one port go: forward rules to the `inet`
      forward chain, DNAT rules to the IPv4 prerouting chain and, only when
      the rule is exposed via IPv6, mark rules to the IPv6 prerouting chain. */
  predicate WwtcTarget(rule: WiderWorldToContainerRule, cmd: string) {
    AddsTo(cmd, Inet, "forward") || AddsTo(cmd, Ip, "prerouting") || (rule.exposeViaIpv6 && AddsTo(cmd, Ip6, "prerouting"))
  }

  /** The IPv4 source-restricted commands add to the `inet` forward chain
      and the IPv4 prerouting chain. */
  lemma SourceCidrsV4Targets(rules: PortRules, cidrs: seq<string>)
    ensures SourceCidrsV4(rules, cidrs).Ok? ==>
      forall c :: c in SourceCidrsV4(rules, cidrs).value ==> AddsTo(c, Inet, "forward") || AddsTo(c, Ip, "prerouting")
  {
    FanOutAddsTo(CidrVariants(rules.forward, cidrs, false), Inet, "forward");
    FanOutAddsTo(CidrVariants(rules.dnat, cidrs, false), Ip, "prerouting");
  }

  /** The open commands add to the `inet` forward chain, the IPv4
      prerouting chain and, for IPv6, the IPv6 prerouting chain. */
  lemma OpenRulesTargets(rules: PortRules, ipv6: bool)
    ensures OpenRules(rules, ipv6).Ok? ==> forall c :: c in OpenRules(rules, ipv6).value ==>
      AddsTo(c, Inet, "forward") || AddsTo(c, Ip, "prerouting") || (ipv6 && AddsTo(c, Ip6, "prerouting"))
  {
    var forward := Render(rules.forward);
    var dnat := Render(rules.dnat);
    var mark := Render(rules.mark);
    if forward.Ok? && dnat.Ok? && mark.Ok? {
      AddRuleAddsTo(Inet, "forward", forward.value);
      AddRuleAddsTo(Ip, "prerouting", dnat.value);
      AddRuleAddsTo(Ip6, "prerouting", mark.value);
    }
  }

  /** Where the commands of one prepared port go. */
  lemma PortCommandsTargets(rule: WiderWorldToContainerRule, rules: PortRules)
    ensures WwtcPortCommands(rule, rules).Ok? ==>
      forall c :: c in WwtcPortCommands(rule, rules).value ==> WwtcTarget(rule, c)
  {
    if rule.sourceCidrV4.Some? {
      SourceCidrsV4Targets(rules, rule.sourceCidrV4.value);
    }
    if rule.sourceCidrV6.Some? {
      FanOutAddsTo(CidrVariants(rules.mark, rule.sourceCidrV6.value, true), Ip6, "prerouting");
    }
    OpenRulesTargets(rules, rule.exposeViaIpv6);
  }

  lemma WwtcPortTargets(rule: WiderWorldToContainerRule, ctx: Context, port: ExposePort)
    ensures WwtcPort(rule, ctx, port).Ok? && WwtcPort(rule, ctx, port).value.Some? ==>
      forall c :: c in WwtcPort(rule, ctx, port).value.value ==> WwtcTarget(rule, c)
  {
    var prepared := WwtcPortRules(rule, ctx, port);
    if prepared.Ok? && prepared.value.Some? {
      PortCommandsTargets(rule, prepared.value.value);
    }
  }

  /** Every command of a successful run of all ports satisfies what every
      single port's commands satisfy. */
  lemma {:induction false} AllPortsEvery<T>(items: seq<T>, f: T -> Result<Option<seq<string>>>, P: string -> bool)
    requires forall x :: x in items && f(x).Ok? && f(x).value.Some? ==> forall c :: c in f(x).value.value ==> P(c)
    ensures AllPorts(items, f).Ok? && AllPorts(items, f).value.Some? ==>
      forall c :: c in AllPorts(items, f).value.value ==> P(c)
  {
    if |items| > 0 {
      var n := |items| - 1;
      assert forall x :: x in items[..n] ==> x in items;
      AllPortsEvery(items[..n], f, P);
      assert items[n] in items;
    }
  }

  /** A wider-world-to-container rule only adds to the `inet` forward
      chain, the IPv4 prerouting chain and, when exposed via IPv6, the
      IPv6 prerouting chain; without `expose_via_ipv6` it yields no IPv6
      command even when IPv6 source CIDRs are configured. */
  lemma WwtcRuleTargets(rule: WiderWorldToContainerRule, ctx: Context)
    ensures WwtcRule(rule, ctx).Ok? && WwtcRule(rule, ctx).value.Some? ==>
      forall c :: c in WwtcRule(rule, ctx).value.value ==> WwtcTarget(rule, c)
    ensures WwtcRule(rule, ctx).Ok? && WwtcRule(rule, ctx).value.Some? && !rule.exposeViaIpv6 ==>
      forall c :: c in WwtcRule(rule, ctx).value.value ==> |Words(c)| > 2 && Words(c)[2] != FamilyName(Ip6)
  {
    forall port | port in rule.exposePort
      ensures WwtcPort(rule, ctx, port).Ok? && WwtcPort(rule, ctx, port).value.Some? ==>
        forall c :: c in WwtcPort(rule, ctx, port).value.value ==> WwtcTarget(rule, c)
    {
      WwtcPortTargets(rule, ctx, port);
    }
    AllPortsEvery(rule.exposePort, WwtcPortFn(rule, ctx), c => WwtcTarget(rule, c));
    var all := WwtcRule(rule, ctx);
    if all.Ok? && all.value.Some? && !rule.exposeViaIpv6 {
      forall c | c in all.value.value
        ensures |Words(c)| > 2 && Words(c)[2] != FamilyName(Ip6)
      {
        WwtcTargetFamily(rule, c);
      }
    }
  }

  /** Without `expose_via_ipv6`, a command in a target chain is not of the
      IPv6 family. */
  lemma WwtcTargetFamily(rule: WiderWorldToContainerRule, c: string)
    requires WwtcTarget(rule, c) && !rule.exposeViaIpv6
    ensures |Words(c)| > 2 && Words(c)[2] != FamilyName(Ip6)
  {
    var w := Words(c);
    assert w[..5][2] == w[2];
  }

  /** With IPv6 source CIDRs but no IPv4 ones, a port gets no IPv4 rule at
      all: only the IPv6 mark rules, and none without `expose_via_ipv6`. */
  lemma WwtcV6CidrsOnly(rule: WiderWorldToContainerRule, ctx: Context, port: ExposePort)
    requires rule.sourceCidrV4.None? && rule.sourceCidrV6.Some?
    ensures WwtcPort(rule, ctx, port).Ok? && WwtcPort(rule, ctx, port).value.Some? ==>
      var cmds := WwtcPort(rule, ctx, port).value.value;
      (forall c :: c in cmds ==> AddsTo(c, Ip6, "prerouting"))
      && (rule.exposeViaIpv6 ==> |cmds| == |rule.sourceCidrV6.value|)
      && (!rule.exposeViaIpv6 ==> cmds == [])
  {
    var prepared := WwtcPortRules(rule, ctx, port);
    if prepared.Ok? && prepared.value.Some? {
      var variants := CidrVariants(prepared.value.value.mark, rule.sourceCidrV6.value, true);
      FanOutAddsTo(variants, Ip6, "prerouting");
      FanOutCount(variants, Ip6, "prerouting");
    }
  }

  /** How many commands one port yields: two per IPv4 source CIDR plus one
      per IPv6 source CIDR when exposed via IPv6; without CIDRs, a forward
      and a DNAT rule plus a mark rule when exposed via IPv6. */
  lemma WwtcPortCount(rule: WiderWorldToContainerRule, ctx: Context, port: ExposePort)
    ensures WwtcPort(rule, ctx, port).Ok? && WwtcPort(rule, ctx, port).value.Some? ==>
      |WwtcPort(rule, ctx, port).value.value| ==
        if rule.sourceCidrV4.Some? || rule.sourceCidrV6.Some? then
          (if rule.sourceCidrV4.Some? then 2 * |rule.sourceCidrV4.value| else 0)
          + (if rule.exposeViaIpv6 && rule.sourceCidrV6.Some? then |rule.sourceCidrV6.value| else 0)
        else if rule.exposeViaIpv6 then 3 else 2
  {
    var prepared := WwtcPortRules(rule, ctx, port);
    if prepared.Ok? && prepared.value.Some? {
      PortCommandsCount(rule, prepared.value.value);
    }
  }

  /** How many commands one prepared port yields. */
  lemma PortCommandsCount(rule: WiderWorldToContainerRule, rules: PortRules)
    ensures WwtcPortCommands(rule, rules).Ok? ==>
      |WwtcPortCommands(rule, rules).value| ==
        if rule.sourceCidrV4.Some? || rule.sourceCidrV6.Some? then
          (if rule.sourceCidrV4.Some? then 2 * |rule.sourceCidrV4.value| else 0)
          + (if rule.exposeViaIpv6 && rule.sourceCidrV6.Some? then |rule.sourceCidrV6.value| else 0)
        else if rule.exposeViaIpv6 then 3 else 2
  {
    if rule.sourceCidrV4.Some? {
      FanOutCount(CidrVariants(rules.forward, rule.sourceCidrV4.value, false), Inet, "forward");
      FanOutCount(CidrVariants(rules.dnat, rule.sourceCidrV4.value, false), Ip, "prerouting");
    }
    if rule.sourceCidrV6.Some? {
      FanOutCount(CidrVariants(rules.mark, rule.sourceCidrV6.value, true), Ip6, "prerouting");
    }
  }

  /** A port whose network, container or external interface is missing
      drops the whole rule, including the rules of the ports before it. */
  lemma WwtcDropsWholeRule(rule: WiderWorldToContainerRule, ctx: Context, k: int)
    requires 0 <= k < |rule.exposePort| && WwtcPortRules(rule, ctx, rule.exposePort[k]) == Ok(None)
    requires forall j :: 0 <= j < k ==> WwtcPort(rule, ctx, rule.exposePort[j]).Ok?
    ensures WwtcRule(rule, ctx) == Ok(None)
  {
    AllPortsStopAt(rule.exposePort, k, WwtcPortFn(rule, ctx));
  }

  /** The DNAT rule of a port sends the host port, on the external
      interface, to the container's address and port (the host port when
      none is given). */
  lemma WwtcDnatText(bridge: string, address: string, port: ExposePort, iface: string)
    ensures Render(PortRulesOf(bridge, address, port, iface).dnat)
      == Ok(Spaced([port.family, "dport", Text.NatToString(port.hostPort), "meta", "iifname", iface]
                   + MarkClause + ["dnat", address + ":" + Text.NatToString(ContainerPort(port))]))
  {
    var fields := PortRulesOf(bridge, address, port, iface).dnat;
    assert MatchArgs(fields) == [port.family, "dport", Text.NatToString(port.hostPort), "meta", "iifname", iface];
    assert ActionClause(fields) == ["dnat", address + ":" + Text.NatToString(ContainerPort(port))];
    assert Trailer(fields) == MarkClause + ActionClause(fields);
    assert Args(fields) == Ok(MatchArgs(fields) + Trailer(fields));
    assert MatchArgs(fields) + Trailer(fields)
      == [port.family, "dport", Text.NatToString(port.hostPort), "meta", "iifname", iface]
         + MarkClause + ["dnat", address + ":" + Text.NatToString(ContainerPort(port))];
  }

  /** The container DNAT ignores the port's protocol family: the rule is
      the same for `tcp` and `udp`. */
  lemma CdnatIgnoresFamily(rule: ContainerDnatRule, ctx: Context, port: ExposePort, family: string)
    ensures CdnatPort(rule, ctx, port) == CdnatPort(rule, ctx, port.(family := family))
  {
  }

  /** A container DNAT rule matches `tcp` on the container port and ends
      with the DNAT to the destination container's address and port, via
      the destination network's bridge. */
  lemma CdnatText(rule: ContainerDnatRule, ctx: Context, port: ExposePort)
    requires CdnatPortRule(rule, ctx, port).Ok? && CdnatPortRule(rule, ctx, port).value.Some?
    ensures var fields := CdnatPortRule(rule, ctx, port).value.value;
      var id := ctx.networkMap[rule.dstNetwork].id;
      rule.dstNetwork in ctx.networkMap
      && GetNetworkForContainer(ctx, rule.dstContainer, id).Ok?
      && GetNetworkForContainer(ctx, rule.dstContainer, id).value.Some?
      && Args(fields).Ok?
      && Args(fields).value[..3] == ["tcp", "dport", Text.NatToString(ContainerPort(port))]
      && Args(fields).value[|Args(fields).value| - 2..]
         == ["dnat", DnatTarget(Ipv4Of(GetNetworkForContainer(ctx, rule.dstContainer, id).value.value), ContainerPort(port))]
      && fields.outInterface == Some(GetBridgeName(id).value)
  {
    var fields := CdnatPortRule(rule, ctx, port).value.value;
    PortMatchLeads(fields);
  }

  /** A container DNAT rule whose destination network is unknown yields no
      rules once its source side resolves. */
  lemma CdnatUnknownDestination(rule: ContainerDnatRule, ctx: Context)
    requires rule.dstNetwork !in ctx.networkMap && |rule.exposePort| > 0
    requires SourceSide(ctx, rule.srcNetwork, rule.srcContainer).Ok?
    ensures CdnatRule(rule, ctx) == Ok(None)
  {
    AllPortsStopAt(rule.exposePort, 0, CdnatPortFn(rule, ctx));
  }
}
