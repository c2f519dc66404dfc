/** The iptables processors of the backend defaults, the global defaults
    and the container-to-container, container-to-wider-world and
    container-to-host sections. Every rule goes to a chain DFW owns, with
    the verdict or policy as an upper-case jump target. */
module IptSections {
  import opened Wrappers
  import opened NftTypes
  import opened IptRule
  import opened IptRestore
  import opened IptCommands
  import opened Process
  import opened Config
  import Text

  /** The jump target of a verdict: its display in upper case. */
  function Jump(v: RuleVerdict): (s: string)
    ensures ParseRuleVerdict(s) == Some(v)
  {
    RuleVerdictUpperCase(v);
    Text.ToUpper(RuleVerdictName(v))
  }

  /** The jump target of a chain policy: its display in upper case. */
  function PolicyJump(p: ChainPolicy): (s: string)
    ensures ParseChainPolicy(s) == Some(p)
  {
    Text.ToUpper(ChainPolicyName(p))
  }

  /** The targets are the upper-case names iptables knows. */
  lemma JumpNames()
    ensures Jump(RuleVerdict.Accept) == "ACCEPT" && Jump(RuleVerdict.Drop) == "DROP" && Jump(RuleVerdict.Reject) == "REJECT"
    ensures PolicyJump(ChainPolicy.Accept) == "ACCEPT" && PolicyJump(ChainPolicy.Drop) == "DROP"
  {
    UpperAccept();
    UpperDrop();
    UpperReject();
  }

  // ---------------------------------------------------------------------
  // Built rules appended to their chain

  /** The rule the fields build to, appended to its chain, in family `d`. */
  function AppendBuiltOf(d: Discriminant, fields: Fields): Result<Option<seq<IptablesRule>>> {
    match Render(fields)
    case Err(e) => Err(e)
    case Ok(b) => Ok(Some([AppendBuiltRule(d, b)]))
  }

  /** Builds the rule and appends it to its chain. */
  method EmitBuilt(rule: IptRule.Rule, d: Discriminant) returns (r: Result<Option<seq<IptablesRule>>>)
    ensures r == AppendBuiltOf(d, rule.Snapshot())
  {
    var built := rule.Build();
    match built {
      case Err(e) => return Err(e);
      case Ok(b) => return Ok(Some([AppendBuiltRule(d, b)]));
    }
  }

  /** A rule with a match option and a jump builds, and is appended as
      `-A <chain> <options> -j <target>` to the table and chain it was
      made for. */
  lemma AppendBuiltOfText(d: Discriminant, fields: Fields)
    requires HasMatchOption(fields) && fields.jump.Some?
    ensures AppendBuiltOf(d, fields)
      == Ok(Some([AppendRule(d, fields.table, fields.chain, Text.Join(Args(fields).value, " "))]))
    ensures Args(fields).value[|MatchOptions(fields)|..|MatchOptions(fields)| + 2] == ["-j", fields.jump.value]
  {
    RenderOutcome(fields);
    JumpThenComment(fields);
  }

  // ---------------------------------------------------------------------
  // Backend defaults

  /** The initialization rules of one table, each added to it raw. */
  function TableInitRules(d: Discriminant, table: string, rules: seq<string>): (r: seq<IptablesRule>)
    ensures |r| == |rules|
    ensures forall j :: 0 <= j < |rules| ==> r[j] == AddRule(d, table, rules[j])
  {
    seq(|rules|, j requires 0 <= j < |rules| => AddRule(d, table, rules[j]))
  }

  /** The initialization rules of every table, table after table. */
  function InitRules(d: Discriminant, tables: seq<(string, seq<string>)>): seq<IptablesRule> {
    if |tables| == 0 then []
    else
      var last := tables[|tables| - 1];
      InitRules(d, tables[..|tables| - 1]) + TableInitRules(d, last.0, last.1)
  }

  /** The initialization rules of one IP version, if configured. */
  function VersionRules(d: Discriminant, tables: Option<seq<(string, seq<string>)>>): seq<IptablesRule> {
    if tables.Some? then InitRules(d, tables.value) else []
  }

  /** `Process for iptables::types::Defaults`: the IPv4 initialization
      rules, then the IPv6 ones. */
  function DefaultsSection(defaults: IptDefaults): Result<Option<seq<IptablesRule>>> {
    if defaults.initialization.None? then Ok(Some([]))
    else
      var init := defaults.initialization.value;
      Ok(Some(VersionRules(Discriminant.V4, init.v4) + VersionRules(Discriminant.V6, init.v6)))
  }

  function DefaultsFn(): IptDefaults -> Result<Option<seq<IptablesRule>>> {
    defaults => DefaultsSection(defaults)
  }

  /** The rules of every table, as the engine's nested loop pushes them. */
  method PushInitRules(rules: seq<IptablesRule>, d: Discriminant, tables: seq<(string, seq<string>)>)
    returns (out: seq<IptablesRule>)
    ensures out == rules + InitRules(d, tables)
  {
    out := rules;
    for i := 0 to |tables|
      invariant out == rules + InitRules(d, tables[..i])
    {
      assert tables[..i + 1][..i] == tables[..i];
      var (table, initializationRules) := tables[i];
      ghost var before := out;
      for j := 0 to |initializationRules|
        invariant out == before + TableInitRules(d, table, initializationRules[..j])
      {
        assert TableInitRules(d, table, initializationRules[..j + 1])
          == TableInitRules(d, table, initializationRules[..j]) + [AddRule(d, table, initializationRules[j])];
        out := out + [AddRule(d, table, initializationRules[j])];
      }
      assert initializationRules[..|initializationRules|] == initializationRules;
    }
    assert tables[..|tables|] == tables;
  }

  /** `Process for iptables::types::Defaults`, as the engine runs it. */
  method ProcessDefaults(defaults: IptDefaults) returns (r: Result<Option<seq<IptablesRule>>>)
    ensures r == DefaultsSection(defaults)
  {
    var rules: seq<IptablesRule> := [];
    if defaults.initialization.Some? {
      var init := defaults.initialization.value;
      if init.v4.Some? {
        rules := PushInitRules(rules, Discriminant.V4, init.v4.value);
        assert rules == [] + InitRules(Discriminant.V4, init.v4.value);
      }
      ghost var v4 := rules;
      assert v4 == VersionRules(Discriminant.V4, init.v4);
      if init.v6.Some? {
        rules := PushInitRules(rules, Discriminant.V6, init.v6.value);
      } else {
        assert rules + [] == rules;
      }
      assert rules == v4 + VersionRules(Discriminant.V6, init.v6);
    }
    return Ok(Some(rules));
  }

  /** A rule is an initialization rule of the tables exactly when it is
      some table's raw rule added to that table in this family. */
  lemma {:induction false} InitRulesMembers(d: Discriminant, tables: seq<(string, seq<string>)>, x: IptablesRule)
    ensures x in InitRules(d, tables) <==>
      exists k, j :: 0 <= k < |tables| && 0 <= j < |tables[k].1| && x == AddRule(d, tables[k].0, tables[k].1[j])
  {
    if |tables| > 0 {
      var n := |tables| - 1;
      InitRulesMembers(d, tables[..n], x);
      var last := tables[n];
      if x in InitRules(d, tables) {
        if x in InitRules(d, tables[..n]) {
          var k, j :| 0 <= k < n && 0 <= j < |tables[..n][k].1| && x == AddRule(d, tables[..n][k].0, tables[..n][k].1[j]);
          assert tables[..n][k] == tables[k];
        } else {
          var j :| 0 <= j < |last.1| && TableInitRules(d, last.0, last.1)[j] == x;
          assert tables[n] == last;
        }
      }
      if exists k, j :: 0 <= k < |tables| && 0 <= j < |tables[k].1| && x == AddRule(d, tables[k].0, tables[k].1[j]) {
        var k, j :| 0 <= k < |tables| && 0 <= j < |tables[k].1| && x == AddRule(d, tables[k].0, tables[k].1[j]);
        if k < n {
          assert tables[..n][k] == tables[k];
        } else {
          assert TableInitRules(d, last.0, last.1)[j] == x;
        }
      }
    }
  }

  /** The IPv4 initialization rules are tagged IPv4 and come first, the
      IPv6 ones are tagged IPv6, and none of them names a chain. */
  lemma DefaultsFamilies(defaults: IptDefaults, i: int)
    requires 0 <= i < |DefaultsSection(defaults).value.value|
    ensures var out := DefaultsSection(defaults).value.value;
      PolicyOrRuleOf(out[i]).Rule? && PolicyOrRuleOf(out[i]).chain == ""
      && (DiscriminantOf(out[i]) == Discriminant.V4 <==> i < |VersionRules(Discriminant.V4, defaults.initialization.value.v4)|)
  {
    var init := defaults.initialization.value;
    var v4 := VersionRules(Discriminant.V4, init.v4);
    var v6 := VersionRules(Discriminant.V6, init.v6);
    var out := v4 + v6;
    if i < |v4| {
      assert out[i] == v4[i] && out[i] in InitRules(Discriminant.V4, init.v4.value);
      InitRulesMembers(Discriminant.V4, init.v4.value, out[i]);
    } else {
      assert out[i] == v6[i - |v4|] && out[i] in InitRules(Discriminant.V6, init.v6.value);
      InitRulesMembers(Discriminant.V6, init.v6.value, out[i]);
    }
  }

  // ---------------------------------------------------------------------
  // Global defaults

  /** Traffic from the default bridge to the host is accepted. */
  function BridgeInputFields(bridge: string): Fields {
    Fresh("filter", DfwInputChain).(inInterface := Some(bridge), jump := Some("ACCEPT"))
  }

  /** Traffic from the default bridge out of an external interface is
      accepted. */
  function BridgeForwardFields(bridge: string, iface: string): Fields {
    Fresh("filter", DfwForwardChain).(inInterface := Some(bridge), outInterface := Some(iface), jump := Some("ACCEPT"))
  }

  /** Traffic leaving an external interface is masqueraded. */
  function MasqueradeFields(iface: string): Fields {
    Fresh("nat", DfwPostroutingChain).(outInterface := Some(iface), jump := Some("MASQUERADE"))
  }

  function BridgeForwardFn(bridge: string): string -> Result<Option<seq<IptablesRule>>> {
    iface => AppendBuiltOf(Discriminant.V4, BridgeForwardFields(bridge, iface))
  }

  function MasqueradeFn(): string -> Result<Option<seq<IptablesRule>>> {
    iface => AppendBuiltOf(Discriminant.V4, MasqueradeFields(iface))
  }

  /** The rules for the default bridge: none without a network named
      `bridge`, an error when that network has no options, none when the
      options do not name its interface; else the input rule and a
      forward rule per external interface. */
  function BridgeRules(g: GlobalDefaults, ctx: Context): Result<seq<IptablesRule>> {
    if "bridge" !in ctx.networkMap then Ok([])
    else
      var options := ctx.networkMap["bridge"].options;
      if options.None? then Err(MissingNetworkOptions)
      else if BridgeNameOption !in options.value then Ok([])
      else
        var bridge := options.value[BridgeNameOption];
        match AppendBuiltOf(Discriminant.V4, BridgeInputFields(bridge))
        case Err(e) => Err(e)
        case Ok(input) =>
          match ProcessRules(g.externalNetworkInterfaces, BridgeForwardFn(bridge))
          case Err(e) => Err(e)
          case Ok(forward) => Ok(Contribution(input) + forward)
  }

  /** `Process for GlobalDefaults`: the bridge rules, then a masquerade
      rule per external interface. */
  function GlobalDefaultsSection(g: GlobalDefaults, ctx: Context): Result<Option<seq<IptablesRule>>> {
    var bridge :- BridgeRules(g, ctx);
    match ProcessRules(g.externalNetworkInterfaces, MasqueradeFn())
    case Err(e) => Err(e)
    case Ok(masquerade) => Ok(Some(bridge + masquerade))
  }

  method ProcessBridgeForwardRule(bridge: string, iface: string) returns (r: Result<Option<seq<IptablesRule>>>)
    ensures r == AppendBuiltOf(Discriminant.V4, BridgeForwardFields(bridge, iface))
  {
    var rule := new IptRule.Rule("filter", DfwForwardChain);
    rule.SetInInterface(bridge);
    rule.SetOutInterface(iface);
    rule.SetJump("ACCEPT");
    r := EmitBuilt(rule, Discriminant.V4);
  }

  /** A forward rule per external interface, in order. */
  method ProcessBridgeForwardRules(bridge: string, ifaces: seq<string>) returns (r: Result<seq<IptablesRule>>)
    ensures r == ProcessAll(ifaces, BridgeForwardFn(bridge))
  {
    var acc: seq<IptablesRule> := [];
    for i := 0 to |ifaces|
      invariant ProcessAll(ifaces[..i], BridgeForwardFn(bridge)) == Ok(acc)
    {
      ProcessAllStep(ifaces, i, BridgeForwardFn(bridge));
      var sub := ProcessBridgeForwardRule(bridge, ifaces[i]);
      if sub.Err? {
        ProcessAllPrefixError(ifaces, i + 1, BridgeForwardFn(bridge));
        return Err(sub.error);
      }
      acc := acc + Contribution(sub.value);
    }
    assert ifaces[..|ifaces|] == ifaces;
    return Ok(acc);
  }

  method ProcessMasqueradeRule(iface: string) returns (r: Result<Option<seq<IptablesRule>>>)
    ensures r == AppendBuiltOf(Discriminant.V4, MasqueradeFields(iface))
  {
    var rule := new IptRule.Rule("nat", DfwPostroutingChain);
    rule.SetOutInterface(iface);
    rule.SetJump("MASQUERADE");
    r := EmitBuilt(rule, Discriminant.V4);
  }

  /** A masquerade rule per external interface, in order. */
  method ProcessMasqueradeRules(ifaces: seq<string>) returns (r: Result<seq<IptablesRule>>)
    ensures r == ProcessAll(ifaces, MasqueradeFn())
  {
    var acc: seq<IptablesRule> := [];
    for i := 0 to |ifaces|
      invariant ProcessAll(ifaces[..i], MasqueradeFn()) == Ok(acc)
    {
      ProcessAllStep(ifaces, i, MasqueradeFn());
      var sub := ProcessMasqueradeRule(ifaces[i]);
      if sub.Err? {
        ProcessAllPrefixError(ifaces, i + 1, MasqueradeFn());
        return Err(sub.error);
      }
      acc := acc + Contribution(sub.value);
    }
    assert ifaces[..|ifaces|] == ifaces;
    return Ok(acc);
  }

  /** The default bridge's rules, as the engine adds them. */
  method ProcessBridgeRules(g: GlobalDefaults, ctx: Context) returns (r: Result<seq<IptablesRule>>)
    ensures r == BridgeRules(g, ctx)
  {
    if "bridge" !in ctx.networkMap {
      return Ok([]);
    }
    var bridgeNetwork := ctx.networkMap["bridge"];
    if bridgeNetwork.options.None? {
      return Err(MissingNetworkOptions);
    }
    if BridgeNameOption !in bridgeNetwork.options.value {
      return Ok([]);
    }
    var bridgeName := bridgeNetwork.options.value[BridgeNameOption];
    var rule := new IptRule.Rule("filter", DfwInputChain);
    rule.SetInInterface(bridgeName);
    rule.SetJump("ACCEPT");
    var input := EmitBuilt(rule, Discriminant.V4);
    match input {
      case Err(e) => return Err(e);
      case Ok(inputRules) =>
        var forward: seq<IptablesRule> := [];
        if g.externalNetworkInterfaces.Some? {
          var sub := ProcessBridgeForwardRules(bridgeName, g.externalNetworkInterfaces.value);
          match sub {
            case Err(e) => return Err(e);
            case Ok(rules) => forward := rules;
          }
        }
        return Ok(Contribution(inputRules) + forward);
    }
  }

  /** `Process for GlobalDefaults`, as the engine runs it. */
  method ProcessGlobalDefaults(g: GlobalDefaults, ctx: Context) returns (r: Result<Option<seq<IptablesRule>>>)
    ensures r == GlobalDefaultsSection(g, ctx)
  {
    var rules :- ProcessBridgeRules(g, ctx);
    var masquerade: seq<IptablesRule> := [];
    if g.externalNetworkInterfaces.Some? {
      var sub := ProcessMasqueradeRules(g.externalNetworkInterfaces.value);
      match sub {
        case Err(e) => return Err(e);
        case Ok(m) => masquerade := m;
      }
    }
    return Ok(Some(rules + masquerade));
  }

  lemma JoinFour(a: string, b: string, c: string, d: string)
    ensures Text.Join([a, b, c, d], " ") == a + " " + b + " " + c + " " + d
  {
    assert Text.Join([c, d], " ") == c + " " + d by {
      assert [c, d][1..] == [d];
    }
    assert Text.Join([b, c, d], " ") == b + " " + (c + " " + d) by {
      assert [b, c, d][1..] == [c, d];
    }
    assert [a, b, c, d][1..] == [b, c, d];
    assert Text.Join([a, b, c, d], " ") == a + " " + (b + " " + (c + " " + d));
  }

  lemma JoinSix(a: string, b: string, c: string, d: string, e: string, f: string)
    ensures Text.Join([a, b, c, d, e, f], " ") == a + " " + b + " " + c + " " + d + " " + e + " " + f
  {
    JoinFour(c, d, e, f);
    assert Text.Join([b, c, d, e, f], " ") == b + " " + (c + " " + d + " " + e + " " + f) by {
      assert [b, c, d, e, f][1..] == [c, d, e, f];
    }
    assert [a, b, c, d, e, f][1..] == [b, c, d, e, f];
    assert Text.Join([a, b, c, d, e, f], " ") == a + " " + (b + " " + (c + " " + d + " " + e + " " + f));
  }

  /** The default bridge's input rule as iptables reads it. */
  lemma BridgeInputText(bridge: string)
    ensures AppendBuiltOf(Discriminant.V4, BridgeInputFields(bridge))
      == Ok(Some([AppendRule(Discriminant.V4, "filter", DfwInputChain, "-i " + bridge + " -j ACCEPT")]))
  {
    var input := BridgeInputFields(bridge);
    BridgeInputArgs(bridge);
    JoinFour("-i", bridge, "-j", "ACCEPT");
    assert "-i" + " " + bridge + " " + "-j" + " " + "ACCEPT" == "-i " + bridge + " -j ACCEPT";
    AppendBuiltOfText(Discriminant.V4, input);
  }

  lemma BridgeInputArgs(bridge: string)
    ensures HasMatchOption(BridgeInputFields(bridge)) && Args(BridgeInputFields(bridge)) == Ok(["-i", bridge, "-j", "ACCEPT"])
  {
    var input := BridgeInputFields(bridge);
    assert MatchOptions(input) == ["-i", bridge];
    var a := Args(input).value;
    assert a == ["-i", bridge] + ["-j", "ACCEPT"] + [];
    assert |a| == 4 && a[0] == "-i" && a[1] == bridge && a[2] == "-j" && a[3] == "ACCEPT";
    assert a == ["-i", bridge, "-j", "ACCEPT"];
  }

  /** The default bridge's forward rule as iptables reads it. */
  lemma BridgeForwardText(bridge: string, iface: string)
    ensures AppendBuiltOf(Discriminant.V4, BridgeForwardFields(bridge, iface))
      == Ok(Some([AppendRule(Discriminant.V4, "filter", DfwForwardChain, "-i " + bridge + " -o " + iface + " -j ACCEPT")]))
  {
    var forward := BridgeForwardFields(bridge, iface);
    BridgeForwardArgs(bridge, iface);
    JoinSix("-i", bridge, "-o", iface, "-j", "ACCEPT");
    assert "-i" + " " + bridge + " " + "-o" + " " + iface + " " + "-j" + " " + "ACCEPT"
      == "-i " + bridge + " -o " + iface + " -j ACCEPT";
    AppendBuiltOfText(Discriminant.V4, forward);
  }

  lemma BridgeForwardArgs(bridge: string, iface: string)
    ensures HasMatchOption(BridgeForwardFields(bridge, iface))
      && Args(BridgeForwardFields(bridge, iface)) == Ok(["-i", bridge, "-o", iface, "-j", "ACCEPT"])
  {
    var forward := BridgeForwardFields(bridge, iface);
    assert MatchOptions(forward) == ["-i", bridge, "-o", iface];
    var b := Args(forward).value;
    assert b == ["-i", bridge, "-o", iface] + ["-j", "ACCEPT"] + [];
    assert |b| == 6 && b[0] == "-i" && b[1] == bridge && b[2] == "-o" && b[3] == iface && b[4] == "-j" && b[5] == "ACCEPT";
    assert b == ["-i", bridge, "-o", iface, "-j", "ACCEPT"];
  }

  /** The masquerade rule as iptables reads it. */
  lemma MasqueradeText(iface: string)
    ensures AppendBuiltOf(Discriminant.V4, MasqueradeFields(iface))
      == Ok(Some([AppendRule(Discriminant.V4, "nat", DfwPostroutingChain, "-o " + iface + " -j MASQUERADE")]))
  {
    var masquerade := MasqueradeFields(iface);
    MasqueradeArgs(iface);
    JoinFour("-o", iface, "-j", "MASQUERADE");
    assert "-o" + " " + iface + " " + "-j" + " " + "MASQUERADE" == "-o " + iface + " -j MASQUERADE";
    AppendBuiltOfText(Discriminant.V4, masquerade);
  }

  lemma MasqueradeArgs(iface: string)
    ensures HasMatchOption(MasqueradeFields(iface)) && Args(MasqueradeFields(iface)) == Ok(["-o", iface, "-j", "MASQUERADE"])
  {
    var masquerade := MasqueradeFields(iface);
    assert MatchOptions(masquerade) == ["-o", iface];
    var c := Args(masquerade).value;
    assert c == ["-o", iface] + ["-j", "MASQUERADE"] + [];
    assert |c| == 4 && c[0] == "-o" && c[1] == iface && c[2] == "-j" && c[3] == "MASQUERADE";
    assert c == ["-o", iface, "-j", "MASQUERADE"];
  }

  /** The global defaults fail exactly when a network named `bridge` has
      no options; then they end with one masquerade rule per external
      interface. Unlike the nftables backend they accept bridge traffic
      whatever the configured bridge-to-host policy. */
  lemma GlobalDefaultsOutcome(g: GlobalDefaults, ctx: Context, p: ChainPolicy)
    ensures GlobalDefaultsSection(g, ctx).Err? <==> "bridge" in ctx.networkMap && ctx.networkMap["bridge"].options.None?
    ensures GlobalDefaultsSection(g, ctx).Ok? && g.externalNetworkInterfaces.Some? ==>
      var out := GlobalDefaultsSection(g, ctx).value.value;
      var m := ProcessAll(g.externalNetworkInterfaces.value, MasqueradeFn());
      m.Ok? && |m.value| == |g.externalNetworkInterfaces.value| && out[|out| - |m.value|..] == m.value
    ensures GlobalDefaultsSection(g.(defaultDockerBridgeToHostPolicy := p), ctx) == GlobalDefaultsSection(g, ctx)
  {
    BridgeRulesOutcome(g, ctx);
    if g.externalNetworkInterfaces.Some? {
      MasqueradeAll(g.externalNetworkInterfaces.value);
    }
  }

  /** A masquerade rule per interface, and never an error. */
  lemma MasqueradeAll(ifaces: seq<string>)
    ensures ProcessAll(ifaces, MasqueradeFn()).Ok? && |ProcessAll(ifaces, MasqueradeFn()).value| == |ifaces|
  {
    forall x | x in ifaces && MasqueradeFn()(x).Ok?
      ensures MasqueradeFn()(x).value.Some? && |MasqueradeFn()(x).value.value| == 1
    {
      MasqueradeText(x);
    }
    ProcessAllCount(ifaces, MasqueradeFn(), 1);
    ProcessAllError(ifaces, MasqueradeFn());
    forall x | x in ifaces ensures MasqueradeFn()(x).Ok? {
      MasqueradeText(x);
    }
  }

  /** The default bridge's rules fail only when the bridge network has no
      options. */
  lemma BridgeRulesOutcome(g: GlobalDefaults, ctx: Context)
    ensures BridgeRules(g, ctx).Err? <==> "bridge" in ctx.networkMap && ctx.networkMap["bridge"].options.None?
  {
    if "bridge" in ctx.networkMap && ctx.networkMap["bridge"].options.Some?
       && BridgeNameOption in ctx.networkMap["bridge"].options.value {
      var bridge := ctx.networkMap["bridge"].options.value[BridgeNameOption];
      BridgeInputText(bridge);
      if g.externalNetworkInterfaces.Some? {
        var ifaces := g.externalNetworkInterfaces.value;
        ProcessAllError(ifaces, BridgeForwardFn(bridge));
        forall x | x in ifaces ensures BridgeForwardFn(bridge)(x).Ok? {
          BridgeForwardText(bridge, x);
        }
      }
    }
  }

  // ---------------------------------------------------------------------
  // Container to container

  /** The fields of a container-to-container rule, `None` when its network
      or a named container is not found. */
  function CtcRuleFields(rule: ContainerToContainerRule, ctx: Context): Result<Option<Fields>> {
    if rule.network !in ctx.networkMap then Ok(None)
    else
      var id := ctx.networkMap[rule.network].id;
      var bridge :- GetBridgeName(id);
      var base := Fresh("filter", DfwForwardChain).(inInterface := Some(bridge), outInterface := Some(bridge));
      var src :- LookupContainer(ctx, rule.srcContainer, id);
      if src.NotFound? then Ok(None)
      else
        var withSrc := if src.Found? then base.(source := Some(Ipv4Of(src.endpoint))) else base;
        var dst :- LookupContainer(ctx, rule.dstContainer, id);
        if dst.NotFound? then Ok(None)
        else
          var withDst := if dst.Found? then withSrc.(destination := Some(Ipv4Of(dst.endpoint))) else withSrc;
          Ok(Some(withDst.(filter := rule.matches, jump := Some(Jump(rule.verdict)))))
  }

  /** `Process for ContainerToContainerRule`: one forward rule. */
  function CtcRule(rule: ContainerToContainerRule, ctx: Context): Result<Option<seq<IptablesRule>>> {
    var fields :- CtcRuleFields(rule, ctx);
    if fields.None? then Ok(None) else AppendBuiltOf(Discriminant.V4, fields.value)
  }

  function CtcRuleFn(ctx: Context): ContainerToContainerRule -> Result<Option<seq<IptablesRule>>> {
    rule => CtcRule(rule, ctx)
  }

  /** The forward chain's fallback: a jump to the default policy. */
  function CtcPolicyRule(p: ChainPolicy): IptablesRule {
    AppendRule(Discriminant.V4, "filter", DfwForwardChain, "-j " + PolicyJump(p))
  }

  /** `Process for ContainerToContainer`: the explicit rules, then the
      default policy. */
  function CtcSection(c: ContainerToContainer, ctx: Context): Result<Option<seq<IptablesRule>>> {
    var explicit :- ProcessRules(c.rules, CtcRuleFn(ctx));
    Ok(Some(explicit + [CtcPolicyRule(c.defaultPolicy)]))
  }

  method ProcessCtcRule(rule: ContainerToContainerRule, ctx: Context) returns (r: Result<Option<seq<IptablesRule>>>)
    ensures r == CtcRule(rule, ctx)
  {
    var iptRule := new IptRule.Rule("filter", DfwForwardChain);
    if rule.network !in ctx.networkMap {
      return Ok(None);
    }
    var network := ctx.networkMap[rule.network];
    var bridgeName :- GetBridgeName(network.id);
    iptRule.SetInInterface(bridgeName);
    iptRule.SetOutInterface(bridgeName);
    var src :- SetCtcSource(iptRule, ctx, rule.srcContainer, network.id, bridgeName);
    if src.NotFound? {
      return Ok(None);
    }
    var dst :- SetCtcDestination(iptRule, ctx, rule.dstContainer, network.id, bridgeName);
    if dst.NotFound? {
      return Ok(None);
    }
    SetFilterAndJump(iptRule, rule.matches, Jump(rule.verdict));
    assert CtcRuleFields(rule, ctx) == Ok(Some(iptRule.Snapshot()));
    r := EmitBuilt(iptRule, Discriminant.V4);
  }

  /** Looks up the source container of a container-to-container rule and,
      when it is attached, sets both interfaces to the bridge once more and
      restricts the rule to its address. */
  method SetCtcSource(iptRule: IptRule.Rule, ctx: Context, container: Option<string>, networkId: string, bridgeName: string)
    returns (r: Result<Lookup>)
    requires GetBridgeName(networkId) == Ok(bridgeName)
    requires iptRule.Snapshot().inInterface == Some(bridgeName) && iptRule.Snapshot().outInterface == Some(bridgeName)
    modifies iptRule
    ensures r == LookupContainer(ctx, container, networkId)
    ensures iptRule.Snapshot() == if r.Ok? && r.value.Found? then old(iptRule.Snapshot()).(source := Some(Ipv4Of(r.value.endpoint)))
                                  else old(iptRule.Snapshot())
  {
    if container.Some? {
      var srcNetwork :- GetNetworkForContainer(ctx, container.value, networkId);
      if srcNetwork.None? {
        return Ok(NotFound);
      }
      // The same id already gave a bridge name, so this lookup succeeds.
      var again := GetBridgeName(networkId).value;
      iptRule.SetInInterface(again);
      iptRule.SetOutInterface(again);
      iptRule.SetSource(Ipv4Of(srcNetwork.value));
      return Ok(Found(srcNetwork.value));
    }
    return Ok(NotNamed);
  }

  /** Looks up the destination container of a container-to-container rule
      and, when it is attached, restricts the rule to its address; the
      output interface is set to the bridge once more. */
  method SetCtcDestination(iptRule: IptRule.Rule, ctx: Context, container: Option<string>, networkId: string, bridgeName: string)
    returns (r: Result<Lookup>)
    requires GetBridgeName(networkId) == Ok(bridgeName)
    requires iptRule.Snapshot().outInterface == Some(bridgeName)
    modifies iptRule
    ensures r == LookupContainer(ctx, container, networkId)
    ensures iptRule.Snapshot() == if r.Ok? && r.value.Found? then old(iptRule.Snapshot()).(destination := Some(Ipv4Of(r.value.endpoint)))
                                  else old(iptRule.Snapshot())
  {
    if container.Some? {
      var dstNetwork :- GetNetworkForContainer(ctx, container.value, networkId);
      if dstNetwork.None? {
        return Ok(NotFound);
      }
      // The same id already gave a bridge name, so this lookup succeeds.
      var again := GetBridgeName(networkId).value;
      iptRule.SetOutInterface(again);
      iptRule.SetDestination(Ipv4Of(dstNetwork.value));
      return Ok(Found(dstNetwork.value));
    }
    return Ok(NotNamed);
  }

  method ProcessCtcRules(rules: seq<ContainerToContainerRule>, ctx: Context) returns (r: Result<seq<IptablesRule>>)
    ensures r == ProcessAll(rules, CtcRuleFn(ctx))
  {
    var acc: seq<IptablesRule> := [];
    for i := 0 to |rules|
      invariant ProcessAll(rules[..i], CtcRuleFn(ctx)) == Ok(acc)
    {
      ProcessAllStep(rules, i, CtcRuleFn(ctx));
      var sub := ProcessCtcRule(rules[i], ctx);
      if sub.Err? {
        ProcessAllPrefixError(rules, i + 1, CtcRuleFn(ctx));
        return Err(sub.error);
      }
      acc := acc + Contribution(sub.value);
    }
    assert rules[..|rules|] == rules;
    return Ok(acc);
  }

  /** `Process for ContainerToContainer`, as the engine runs it. */
  method ProcessCtc(c: ContainerToContainer, ctx: Context) returns (r: Result<Option<seq<IptablesRule>>>)
    ensures r == CtcSection(c, ctx)
  {
    var rules: seq<IptablesRule> := [];
    if c.rules.Some? {
      rules :- ProcessCtcRules(c.rules.value, ctx);
    }
    rules := rules + [AppendRule(Discriminant.V4, "filter", DfwForwardChain, "-j " + PolicyJump(c.defaultPolicy))];
    return Ok(Some(rules));
  }

  /** The policy jump is the last rule of the forward chain's section, so
      every explicit rule is matched before it. */
  lemma CtcPolicyLast(c: ContainerToContainer, ctx: Context)
    requires CtcSection(c, ctx).Ok?
    ensures var out := CtcSection(c, ctx).value.value;
      |out| >= 1 && out[|out| - 1] == CtcPolicyRule(c.defaultPolicy)
      && out[..|out| - 1] == ProcessRules(c.rules, CtcRuleFn(ctx)).value
  {
    var explicit := ProcessRules(c.rules, CtcRuleFn(ctx)).value;
    assert (explicit + [CtcPolicyRule(c.defaultPolicy)])[..|explicit|] == explicit;
  }

  /** The policy rule reads `-A DFWRS_FORWARD -j ACCEPT` or
      `-A DFWRS_FORWARD -j DROP`. */
  lemma CtcPolicyRuleWords(p: ChainPolicy)
    ensures Text.Split(PolicyOrRuleOf(CtcPolicyRule(p)).value, ' ') == ["-A", DfwForwardChain, "-j", PolicyJump(p)]
  {
    var jump := PolicyJump(p);
    PolicyJumpWord(p);
    assert IsWord(DfwForwardChain);
    AppendRuleWords(Discriminant.V4, "filter", DfwForwardChain, "-j " + jump);
    SplitJumpWords(jump);
  }

  lemma PolicyJumpWord(p: ChainPolicy)
    ensures IsWord(PolicyJump(p))
  {
    JumpNames();
  }

  lemma SplitJumpWords(jump: string)
    requires IsWord(jump)
    ensures Text.Split("-j " + jump, ' ') == ["-j", jump]
  {
    assert "-j " + jump == "-j" + [' '] + jump;
    Text.SplitPrefix("-j", jump, ' ');
    Text.SplitFree(jump, ' ');
  }

  /** A rule whose network is unknown, or whose named source or
      destination container is not attached to it, contributes nothing. */
  lemma CtcRuleSkipsUnknown(rule: ContainerToContainerRule, ctx: Context)
    requires rule.network !in ctx.networkMap
      || (var id := ctx.networkMap[rule.network].id;
          rule.srcContainer.Some? && GetNetworkForContainer(ctx, rule.srcContainer.value, id) == Ok(None))
    ensures CtcRule(rule, ctx).Ok? ==> CtcRule(rule, ctx).value.None?
  {
  }

  /** A rule on a known network with every named container attached is
      one forward rule entering and leaving the network's bridge. */
  lemma CtcRuleBridged(rule: ContainerToContainerRule, ctx: Context)
    requires CtcRuleFields(rule, ctx).Ok? && CtcRuleFields(rule, ctx).value.Some?
    ensures var f := CtcRuleFields(rule, ctx).value.value;
      var bridge := GetBridgeName(ctx.networkMap[rule.network].id).value;
      f.inInterface == Some(bridge) && f.outInterface == Some(bridge) && f.jump == Some(Jump(rule.verdict))
      && f.table == "filter" && f.chain == DfwForwardChain
    ensures CtcRule(rule, ctx).Ok? && |CtcRule(rule, ctx).value.value| == 1
  {
    var f := CtcRuleFields(rule, ctx).value.value;
    RenderOutcome(f);
  }

  // ---------------------------------------------------------------------
  // Container to wider world

  /** The source side of a rule leaving a network: nothing when the
      network is not named or unknown; the bridge as input interface when
      no container is named; the bridge and the container's address when
      the named container is attached, and nothing at all when it is not. */
  function CtwwSource(ctx: Context, network: Option<string>, container: Option<string>): Result<Fields> {
    var base := Fresh("filter", DfwForwardChain);
    if network.None? || network.value !in ctx.networkMap then Ok(base)
    else
      var id := ctx.networkMap[network.value].id;
      if container.Some? then
        var endpoint :- GetNetworkForContainer(ctx, container.value, id);
        if endpoint.None? then Ok(base)
        else
          var bridge :- GetBridgeName(id);
          Ok(base.(inInterface := Some(bridge), source := Some(Ipv4Of(endpoint.value))))
      else
        var bridge :- GetBridgeName(id);
        Ok(base.(inInterface := Some(bridge)))
  }

  /** The fields of a container-to-wider-world rule before its output
      interface is set. */
  function CtwwRuleFields(rule: ContainerToWiderWorldRule, ctx: Context): Result<Fields> {
    var base :- CtwwSource(ctx, rule.network, rule.srcContainer);
    Ok(base.(filter := rule.matches, jump := Some(Jump(rule.verdict))))
  }

  /** `Process for ContainerToWiderWorldRule`: the rule must build before
      the output interface is added. */
  function CtwwRule(rule: ContainerToWiderWorldRule, ctx: Context): Result<Option<seq<IptablesRule>>> {
    var fields :- CtwwRuleFields(rule, ctx);
    match Render(fields)
    case Err(e) => Err(e)
    case Ok(_) =>
      var out := ExternalInterface(rule.externalNetworkInterface, ctx);
      AppendBuiltOf(Discriminant.V4, if out.Some? then fields.(outInterface := out) else fields)
  }

  function CtwwRuleFn(ctx: Context): ContainerToWiderWorldRule -> Result<Option<seq<IptablesRule>>> {
    rule => CtwwRule(rule, ctx)
  }

  /** The default rule of one network towards one external interface. */
  function WorldDefaultRule(iface: string, network: Network, v: RuleVerdict): Result<Option<seq<IptablesRule>>> {
    var bridge :- GetBridgeName(network.id);
    AppendBuiltOf(Discriminant.V4,
                  Fresh("filter", DfwForwardChain).(inInterface := Some(bridge), outInterface := Some(iface), jump := Some(Jump(v))))
  }

  function WorldDefaultFn(iface: string, v: RuleVerdict): Network -> Result<Option<seq<IptablesRule>>> {
    network => WorldDefaultRule(iface, network, v)
  }

  /** The default rules towards one external interface, one per network. */
  function WorldDefaultRow(iface: string, networks: seq<Network>, v: RuleVerdict): Result<Option<seq<IptablesRule>>> {
    match ProcessAll(networks, WorldDefaultFn(iface, v))
    case Err(e) => Err(e)
    case Ok(row) => Ok(Some(row))
  }

  function WorldRowFn(networks: seq<Network>, v: RuleVerdict): string -> Result<Option<seq<IptablesRule>>> {
    iface => WorldDefaultRow(iface, networks, v)
  }

  /** `Process for ContainerToWiderWorld`: the explicit rules, then the
      default-verdict rules for every external interface and network. */
  function CtwwSection(c: ContainerToWiderWorld, ctx: Context): Result<Option<seq<IptablesRule>>> {
    var explicit :- ProcessRules(c.rules, CtwwRuleFn(ctx));
    var defaults :- ProcessRules(ctx.externalNetworkInterfaces, WorldRowFn(ctx.networks, c.defaultPolicy));
    Ok(Some(explicit + defaults))
  }

  /** The source side of a rule, set on a fresh forward rule. */
  method SetCtwwSource(iptRule: IptRule.Rule, ctx: Context, network: Option<string>, container: Option<string>)
    returns (r: Result<Fields>)
    requires iptRule.Snapshot() == Fresh("filter", DfwForwardChain)
    modifies iptRule
    ensures r == CtwwSource(ctx, network, container)
    ensures r.Ok? ==> iptRule.Snapshot() == r.value
  {
    if network.Some? && network.value in ctx.networkMap {
      var net := ctx.networkMap[network.value];
      if container.Some? {
        var srcNetwork :- GetNetworkForContainer(ctx, container.value, net.id);
        if srcNetwork.Some? {
          var bridgeName :- GetBridgeName(net.id);
          iptRule.SetInInterface(bridgeName);
          iptRule.SetSource(Ipv4Of(srcNetwork.value));
        }
      } else {
        var bridgeName :- GetBridgeName(net.id);
        iptRule.SetInInterface(bridgeName);
      }
    }
    return Ok(iptRule.Snapshot());
  }

  /** Sets the rule's filter, when there is one, and its jump. */
  method SetFilterAndJump(iptRule: IptRule.Rule, matches: Option<string>, jump: string)
    requires iptRule.Snapshot().filter.None?
    modifies iptRule
    ensures iptRule.Snapshot() == old(iptRule.Snapshot()).(filter := matches, jump := Some(jump))
  {
    if matches.Some? {
      iptRule.SetFilter(matches.value);
    }
    iptRule.SetJump(jump);
  }

  /** Sets the rule's output interface: its own, else the primary one. */
  method SetCtwwOut(iptRule: IptRule.Rule, rule: ContainerToWiderWorldRule, ctx: Context)
    modifies iptRule
    ensures var out := ExternalInterface(rule.externalNetworkInterface, ctx);
      iptRule.Snapshot() == if out.Some? then old(iptRule.Snapshot()).(outInterface := out) else old(iptRule.Snapshot())
  {
    if rule.externalNetworkInterface.Some? {
      iptRule.SetOutInterface(rule.externalNetworkInterface.value);
    } else if Primary(ctx).Some? {
      iptRule.SetOutInterface(Primary(ctx).value);
    }
  }

  method ProcessCtwwRule(rule: ContainerToWiderWorldRule, ctx: Context) returns (r: Result<Option<seq<IptablesRule>>>)
    ensures r == CtwwRule(rule, ctx)
  {
    var iptRule := new IptRule.Rule("filter", DfwForwardChain);
    var side :- SetCtwwSource(iptRule, ctx, rule.network, rule.srcContainer);
    SetFilterAndJump(iptRule, rule.matches, Jump(rule.verdict));
    ghost var fields := iptRule.Snapshot();
    assert CtwwRuleFields(rule, ctx) == Ok(fields);
    var check := iptRule.Build();
    if check.Err? {
      return Err(check.error);
    }
    SetCtwwOut(iptRule, rule, ctx);
    r := EmitBuilt(iptRule, Discriminant.V4);
  }

  method ProcessCtwwRules(rules: seq<ContainerToWiderWorldRule>, ctx: Context) returns (r: Result<seq<IptablesRule>>)
    ensures r == ProcessAll(rules, CtwwRuleFn(ctx))
  {
    var acc: seq<IptablesRule> := [];
    for i := 0 to |rules|
      invariant ProcessAll(rules[..i], CtwwRuleFn(ctx)) == Ok(acc)
    {
      ProcessAllStep(rules, i, CtwwRuleFn(ctx));
      var sub := ProcessCtwwRule(rules[i], ctx);
      if sub.Err? {
        ProcessAllPrefixError(rules, i + 1, CtwwRuleFn(ctx));
        return Err(sub.error);
      }
      acc := acc + Contribution(sub.value);
    }
    assert rules[..|rules|] == rules;
    return Ok(acc);
  }

  method ProcessWorldDefaultRule(iface: string, network: Network, v: RuleVerdict) returns (r: Result<Option<seq<IptablesRule>>>)
    ensures r == WorldDefaultRule(iface, network, v)
  {
    var bridgeName :- GetBridgeName(network.id);
    var rule := new IptRule.Rule("filter", DfwForwardChain);
    rule.SetInInterface(bridgeName);
    rule.SetOutInterface(iface);
    rule.SetJump(Jump(v));
    r := EmitBuilt(rule, Discriminant.V4);
  }

  /** The default rules towards one interface, one network after the other. */
  method ProcessWorldDefaultRow(iface: string, networks: seq<Network>, v: RuleVerdict) returns (r: Result<Option<seq<IptablesRule>>>)
    ensures r == WorldDefaultRow(iface, networks, v)
  {
    var acc: seq<IptablesRule> := [];
    for i := 0 to |networks|
      invariant ProcessAll(networks[..i], WorldDefaultFn(iface, v)) == Ok(acc)
    {
      ProcessAllStep(networks, i, WorldDefaultFn(iface, v));
      var sub := ProcessWorldDefaultRule(iface, networks[i], v);
      if sub.Err? {
        ProcessAllPrefixError(networks, i + 1, WorldDefaultFn(iface, v));
        return Err(sub.error);
      }
      acc := acc + Contribution(sub.value);
    }
    assert networks[..|networks|] == networks;
    return Ok(Some(acc));
  }

  /** The default rules for every external interface, in order. */
  method ProcessWorldDefaults(ifaces: seq<string>, networks: seq<Network>, v: RuleVerdict) returns (r: Result<seq<IptablesRule>>)
    ensures r == ProcessAll(ifaces, WorldRowFn(networks, v))
  {
    var acc: seq<IptablesRule> := [];
    for i := 0 to |ifaces|
      invariant ProcessAll(ifaces[..i], WorldRowFn(networks, v)) == Ok(acc)
    {
      ProcessAllStep(ifaces, i, WorldRowFn(networks, v));
      var sub := ProcessWorldDefaultRow(ifaces[i], networks, v);
      if sub.Err? {
        ProcessAllPrefixError(ifaces, i + 1, WorldRowFn(networks, v));
        return Err(sub.error);
      }
      acc := acc + Contribution(sub.value);
    }
    assert ifaces[..|ifaces|] == ifaces;
    return Ok(acc);
  }

  /** `Process for ContainerToWiderWorld`, as the engine runs it. */
  method ProcessCtww(c: ContainerToWiderWorld, ctx: Context) returns (r: Result<Option<seq<IptablesRule>>>)
    ensures r == CtwwSection(c, ctx)
  {
    var rules: seq<IptablesRule> := [];
    if c.rules.Some? {
      rules :- ProcessCtwwRules(c.rules.value, ctx);
    }
    var defaults: seq<IptablesRule> := [];
    if ctx.externalNetworkInterfaces.Some? {
      defaults :- ProcessWorldDefaults(ctx.externalNetworkInterfaces.value, ctx.networks, c.defaultPolicy);
    }
    rules := rules + defaults;
    return Ok(Some(rules));
  }

  /** A rule whose named source container is not attached to its network
      loses its network match altogether: without free-form matches it is
      refused, with them it applies to traffic from anywhere. */
  lemma CtwwUnattachedSource(rule: ContainerToWiderWorldRule, ctx: Context)
    requires rule.network.Some? && rule.network.value in ctx.networkMap && rule.srcContainer.Some?
    requires GetNetworkForContainer(ctx, rule.srcContainer.value, ctx.networkMap[rule.network.value].id) == Ok(None)
    ensures CtwwRule(rule, ctx) == CtwwRule(rule.(network := None, srcContainer := None), ctx)
    ensures rule.matches.None? ==> CtwwRule(rule, ctx) == Err(NoMatchCriterion)
  {
    RenderOutcome(Fresh("filter", DfwForwardChain).(filter := rule.matches, jump := Some(Jump(rule.verdict))));
  }

  /** A rule that matches on its own leaves through its own interface,
      else through the primary one, and always builds. */
  lemma CtwwInterface(rule: ContainerToWiderWorldRule, ctx: Context)
    requires CtwwRuleFields(rule, ctx).Ok? && HasMatchOption(CtwwRuleFields(rule, ctx).value)
    ensures var fields := CtwwRuleFields(rule, ctx).value;
      var out := ExternalInterface(rule.externalNetworkInterface, ctx);
      CtwwRule(rule, ctx) == AppendBuiltOf(Discriminant.V4, if out.Some? then fields.(outInterface := out) else fields)
    ensures CtwwRule(rule, ctx).Ok? && |CtwwRule(rule, ctx).value.value| == 1
    ensures rule.externalNetworkInterface.Some? ==>
      PolicyOrRuleOf(CtwwRule(rule, ctx).value.value[0]).chain == DfwForwardChain
  {
    var fields := CtwwRuleFields(rule, ctx).value;
    var out := ExternalInterface(rule.externalNetworkInterface, ctx);
    var final := if out.Some? then fields.(outInterface := out) else fields;
    assert fields.jump.Some? && fields.chain == DfwForwardChain;
    RenderOutcome(fields);
    assert CtwwRule(rule, ctx) == AppendBuiltOf(Discriminant.V4, final);
    assert HasMatchOption(final) && final.jump.Some?;
    RenderOutcome(final);
    var b := Render(final).value;
    assert CtwwRule(rule, ctx) == Ok(Some([AppendBuiltRule(Discriminant.V4, b)]));
    assert b.chain == DfwForwardChain;
  }

  /** With every network bridged, the defaults hold one rule per external
      interface and network. */
  lemma WorldDefaultsCount(ifaces: seq<string>, networks: seq<Network>, v: RuleVerdict)
    ensures ProcessAll(ifaces, WorldRowFn(networks, v)).Ok? ==>
      |ProcessAll(ifaces, WorldRowFn(networks, v)).value| == |networks| * |ifaces|
  {
    forall iface | iface in ifaces && WorldRowFn(networks, v)(iface).Ok?
      ensures WorldRowFn(networks, v)(iface).value.Some? && |WorldRowFn(networks, v)(iface).value.value| == |networks|
    {
      forall n | n in networks && WorldDefaultFn(iface, v)(n).Ok?
        ensures WorldDefaultFn(iface, v)(n).value.Some? && |WorldDefaultFn(iface, v)(n).value.value| == 1
      {
        var b := GetBridgeName(n.id).value;
        RenderOutcome(Fresh("filter", DfwForwardChain).(inInterface := Some(b), outInterface := Some(iface), jump := Some(Jump(v))));
      }
      ProcessAllCount(networks, WorldDefaultFn(iface, v), 1);
    }
    ProcessAllCount(ifaces, WorldRowFn(networks, v), |networks|);
  }

  // ---------------------------------------------------------------------
  // Container to host

  /** The fields of a container-to-host rule, `None` when its network is
      unknown; a named container that is not attached leaves the rule for
      the whole network. */
  function CthRuleFields(rule: ContainerToHostRule, ctx: Context): Result<Option<Fields>> {
    if rule.network !in ctx.networkMap then Ok(None)
    else
      var id := ctx.networkMap[rule.network].id;
      var bridge :- GetBridgeName(id);
      var src :- LookupContainer(ctx, rule.srcContainer, id);
      var base := Fresh("filter", DfwInputChain).(inInterface := Some(bridge));
      var withSrc := if src.Found? then base.(source := Some(Ipv4Of(src.endpoint))) else base;
      Ok(Some(withSrc.(filter := rule.matches, jump := Some(Jump(rule.verdict)))))
  }

  /** `Process for ContainerToHostRule`: one input rule. */
  function CthRule(rule: ContainerToHostRule, ctx: Context): Result<Option<seq<IptablesRule>>> {
    var fields :- CthRuleFields(rule, ctx);
    if fields.None? then Ok(None) else AppendBuiltOf(Discriminant.V4, fields.value)
  }

  function CthRuleFn(ctx: Context): ContainerToHostRule -> Result<Option<seq<IptablesRule>>> {
    rule => CthRule(rule, ctx)
  }

  /** The default rule of one network towards the host. */
  function HostDefaultRule(network: Network, v: RuleVerdict): Result<Option<seq<IptablesRule>>> {
    var bridge :- GetBridgeName(network.id);
    AppendBuiltOf(Discriminant.V4, Fresh("filter", DfwInputChain).(inInterface := Some(bridge), jump := Some(Jump(v))))
  }

  function HostDefaultFn(v: RuleVerdict): Network -> Result<Option<seq<IptablesRule>>> {
    network => HostDefaultRule(network, v)
  }

  /** `Process for ContainerToHost`: the explicit rules, then one default
      rule per network. */
  function CthSection(c: ContainerToHost, ctx: Context): Result<Option<seq<IptablesRule>>> {
    var explicit :- ProcessRules(c.rules, CthRuleFn(ctx));
    var defaults :- ProcessAll(ctx.networks, HostDefaultFn(c.defaultPolicy));
    Ok(Some(explicit + defaults))
  }

  method ProcessCthRule(rule: ContainerToHostRule, ctx: Context) returns (r: Result<Option<seq<IptablesRule>>>)
    ensures r == CthRule(rule, ctx)
  {
    var iptRule := new IptRule.Rule("filter", DfwInputChain);
    if rule.network !in ctx.networkMap {
      return Ok(None);
    }
    var network := ctx.networkMap[rule.network];
    var bridgeName :- GetBridgeName(network.id);
    iptRule.SetInInterface(bridgeName);
    if rule.srcContainer.Some? {
      var srcNetwork :- GetNetworkForContainer(ctx, rule.srcContainer.value, network.id);
      if srcNetwork.Some? {
        iptRule.SetSource(Ipv4Of(srcNetwork.value));
      }
    }
    if rule.matches.Some? {
      iptRule.SetFilter(rule.matches.value);
    }
    iptRule.SetJump(Jump(rule.verdict));
    r := EmitBuilt(iptRule, Discriminant.V4);
  }

  method ProcessCthRules(rules: seq<ContainerToHostRule>, ctx: Context) returns (r: Result<seq<IptablesRule>>)
    ensures r == ProcessAll(rules, CthRuleFn(ctx))
  {
    var acc: seq<IptablesRule> := [];
    for i := 0 to |rules|
      invariant ProcessAll(rules[..i], CthRuleFn(ctx)) == Ok(acc)
    {
      ProcessAllStep(rules, i, CthRuleFn(ctx));
      var sub := ProcessCthRule(rules[i], ctx);
      if sub.Err? {
        ProcessAllPrefixError(rules, i + 1, CthRuleFn(ctx));
        return Err(sub.error);
      }
      acc := acc + Contribution(sub.value);
    }
    assert rules[..|rules|] == rules;
    return Ok(acc);
  }

  method ProcessHostDefaultRule(network: Network, v: RuleVerdict) returns (r: Result<Option<seq<IptablesRule>>>)
    ensures r == HostDefaultRule(network, v)
  {
    var bridgeName :- GetBridgeName(network.id);
    var rule := new IptRule.Rule("filter", DfwInputChain);
    rule.SetInInterface(bridgeName);
    rule.SetJump(Jump(v));
    r := EmitBuilt(rule, Discriminant.V4);
  }

  method ProcessHostDefaults(networks: seq<Network>, v: RuleVerdict) returns (r: Result<seq<IptablesRule>>)
    ensures r == ProcessAll(networks, HostDefaultFn(v))
  {
    var acc: seq<IptablesRule> := [];
    for i := 0 to |networks|
      invariant ProcessAll(networks[..i], HostDefaultFn(v)) == Ok(acc)
    {
      ProcessAllStep(networks, i, HostDefaultFn(v));
      var sub := ProcessHostDefaultRule(networks[i], v);
      if sub.Err? {
        ProcessAllPrefixError(networks, i + 1, HostDefaultFn(v));
        return Err(sub.error);
      }
      acc := acc + Contribution(sub.value);
    }
    assert networks[..|networks|] == networks;
    return Ok(acc);
  }

  /** `Process for ContainerToHost`, as the engine runs it. */
  method ProcessCth(c: ContainerToHost, ctx: Context) returns (r: Result<Option<seq<IptablesRule>>>)
    ensures r == CthSection(c, ctx)
  {
    var rules: seq<IptablesRule> := [];
    if c.rules.Some? {
      rules :- ProcessCthRules(c.rules.value, ctx);
    }
    var defaults :- ProcessHostDefaults(ctx.networks, c.defaultPolicy);
    rules := rules + defaults;
    return Ok(Some(rules));
  }

  /** A container-to-host rule whose source container is not attached to
      the network applies to the whole network. */
  lemma CthUnattachedSourceWidens(rule: ContainerToHostRule, ctx: Context)
    requires rule.network in ctx.networkMap && rule.srcContainer.Some?
    requires GetNetworkForContainer(ctx, rule.srcContainer.value, ctx.networkMap[rule.network].id) == Ok(None)
    ensures CthRule(rule, ctx) == CthRule(rule.(srcContainer := None), ctx)
  {
  }

  /** A rule on a known network is one input rule unless the network's id
      is too short or the container inspection fails. */
  lemma CthRuleOutcome(rule: ContainerToHostRule, ctx: Context)
    requires rule.network in ctx.networkMap
    ensures var id := ctx.networkMap[rule.network].id;
      CthRule(rule, ctx).Err? <==> GetBridgeName(id).Err? || LookupContainer(ctx, rule.srcContainer, id).Err?
    ensures CthRule(rule, ctx).Ok? ==>
      CthRule(rule, ctx).value.Some? && |CthRule(rule, ctx).value.value| == 1
      && PolicyOrRuleOf(CthRule(rule, ctx).value.value[0]).chain == DfwInputChain
  {
    var fields := CthRuleFields(rule, ctx);
    if fields.Ok? {
      RenderOutcome(fields.value.value);
    }
  }

  /** With every network bridged, the defaults hold one rule per network. */
  lemma HostDefaultsCount(networks: seq<Network>, v: RuleVerdict)
    ensures ProcessAll(networks, HostDefaultFn(v)).Ok? ==> |ProcessAll(networks, HostDefaultFn(v)).value| == |networks|
  {
    forall n | n in networks && HostDefaultFn(v)(n).Ok?
      ensures HostDefaultFn(v)(n).value.Some? && |HostDefaultFn(v)(n).value.value| == 1
    {
      var b := GetBridgeName(n.id).value;
      RenderOutcome(Fresh("filter", DfwInputChain).(inInterface := Some(b), jump := Some(Jump(v))));
    }
    ProcessAllCount(networks, HostDefaultFn(v), 1);
  }
}
