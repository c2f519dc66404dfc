/** The nftables processors of the sections that do not publish ports:
    the backend defaults (initialization rules and hooks into custom
    tables), the global defaults, container-to-container,
    container-to-wider-world and container-to-host. Each processor is a
    function stating its output and a method that builds the same output
    the way the engine does, with rule builders and loops. */
module NftSections {
  import opened Wrappers
  import opened NftTypes
  import opened NftCommands
  import opened NftRule
  import opened Process
  import opened Config

  // ---------------------------------------------------------------------
  // Backend defaults

  /** The initialization rules: those of the backend section, else the
      deprecated top-level ones, else none. */
  function InitializationRules(d: NftDefaults, dfw: Dfw<NftDefaults>): seq<string> {
    var own := if d.initialization.Some? then d.initialization.value.rules else None;
    var deprecated := if dfw.initialization.Some? then dfw.initialization.value.rules else None;
    own.OrElse(deprecated).UnwrapOr([])
  }

  /** The custom tables: those of the backend section, else the deprecated
      ones of the global defaults. */
  function CustomTables(d: NftDefaults, dfw: Dfw<NftDefaults>): Option<seq<Table>> {
    d.customTables.OrElse(dfw.globalDefaults.customTables)
  }

  const CtStateInvalidDrop: string := "ct state invalid drop"
  const CtStateRelatedEstablishedAccept: string := "ct state { related, established } accept"
  const MetaMarkAccept: string := "meta mark and " + DfwMark + " == " + DfwMark + " accept"

  /** The rules hooked into every custom chain, each with the mark naming it. */
  const HookedRules: seq<(string, string)> := [
    ("ct-state-invalid-drop", CtStateInvalidDrop),
    ("ct-state-relatedestablished-accept", CtStateRelatedEstablishedAccept),
    ("meta-mark", MetaMarkAccept)]

  function HookMarker(table: string, chain: string, mark: string): string {
    GenerateMarker(["defaults", table, chain, mark])
  }

  /** The insertion of one hooked rule, tagged with its marker. */
  function HookInsert(table: string, chain: string, mark: string, rule: string): string {
    InsertRule(Inet, table, chain, rule + " comment \"" + HookMarker(table, chain, mark) + "\"", None)
  }

  /** The insertions of the hooked rules whose marker is not yet in the
      current ruleset, in the order of `hooks`. */
  function PendingHooks(table: string, chain: string, ruleset: Option<string>, hooks: seq<(string, string)>): seq<string>
  {
    if |hooks| == 0 then []
    else
      var h := hooks[|hooks| - 1];
      PendingHooks(table, chain, ruleset, hooks[..|hooks| - 1]) + HookStep(table, chain, ruleset, h)
  }

  function Reverse<T>(s: seq<T>): (r: seq<T>)
    ensures |r| == |s|
  {
    if |s| == 0 then [] else [s[|s| - 1]] + Reverse(s[..|s| - 1])
  }

  /** The commands for one custom chain: the pending insertions, reversed. */
  function ChainHooks(table: string, chain: string, ruleset: Option<string>): seq<string> {
    Reverse(PendingHooks(table, chain, ruleset, HookedRules))
  }

  function TableHooks(table: string, chains: seq<string>, ruleset: Option<string>): seq<string>
  {
    if |chains| == 0 then []
    else TableHooks(table, chains[..|chains| - 1], ruleset) + ChainHooks(table, chains[|chains| - 1], ruleset)
  }

  function CustomTableHooks(tables: seq<Table>, ruleset: Option<string>): seq<string>
  {
    if |tables| == 0 then []
    else
      var t := tables[|tables| - 1];
      CustomTableHooks(tables[..|tables| - 1], ruleset) + TableHooks(t.name, t.chains, ruleset)
  }

  /** `Process for nftables::types::Defaults`: the initialization rules,
      then the hooks into every chain of every custom table. */
  function DefaultsSection(d: NftDefaults, dfw: Dfw<NftDefaults>, ctx: Context): Result<Option<seq<string>>> {
    var tables := CustomTables(d, dfw);
    Ok(Some(InitializationRules(d, dfw) + (if tables.Some? then CustomTableHooks(tables.value, ctx.currentRuleset) else [])))
  }

  /** One hooked rule's insertion, unless its marker is already in the
      current ruleset. */
  function HookStep(table: string, chain: string, ruleset: Option<string>, h: (string, string)): seq<string> {
    if MarkerInCurrentRuleset(ruleset, HookMarker(table, chain, h.0)) then [] else [HookInsert(table, chain, h.0, h.1)]
  }

  lemma PendingHooksUnfold(table: string, chain: string, ruleset: Option<string>)
    ensures PendingHooks(table, chain, ruleset, HookedRules)
      == HookStep(table, chain, ruleset, HookedRules[0]) + HookStep(table, chain, ruleset, HookedRules[1])
         + HookStep(table, chain, ruleset, HookedRules[2])
  {
    PendingHooksOfThree(table, chain, ruleset, HookedRules);
  }

  lemma PendingHooksOfThree(table: string, chain: string, ruleset: Option<string>, hs: seq<(string, string)>)
    requires |hs| == 3
    ensures PendingHooks(table, chain, ruleset, hs)
      == HookStep(table, chain, ruleset, hs[0]) + HookStep(table, chain, ruleset, hs[1]) + HookStep(table, chain, ruleset, hs[2])
  {
    var two := hs[..2];
    var one := hs[..1];
    assert two[..1] == one && two[1] == hs[1];
    assert one[..0] == [] && one[0] == hs[0];
    assert PendingHooks(table, chain, ruleset, one) == [] + HookStep(table, chain, ruleset, hs[0]);
  }

  /** One expansion of the marker macro. */
  method PushHook(additional: seq<string>, table: string, chain: string, mark: string, rule: string, ruleset: Option<string>)
    returns (out: seq<string>)
    ensures out == additional + HookStep(table, chain, ruleset, (mark, rule))
  {
    var marker := GenerateMarker(["defaults", table, chain, mark]);
    out := additional;
    if !MarkerInCurrentRuleset(ruleset, marker) {
      out := out + [InsertRule(Inet, table, chain, rule + " comment \"" + marker + "\"", None)];
    }
  }

  /** The commands of one custom chain, as the engine collects them. */
  method HookChain(table: string, chain: string, ruleset: Option<string>) returns (additional: seq<string>)
    ensures additional == ChainHooks(table, chain, ruleset)
  {
    additional := PushHook([], table, chain, "ct-state-invalid-drop", CtStateInvalidDrop, ruleset);
    additional := PushHook(additional, table, chain, "ct-state-relatedestablished-accept", CtStateRelatedEstablishedAccept, ruleset);
    additional := PushHook(additional, table, chain, "meta-mark", MetaMarkAccept, ruleset);
    PendingHooksUnfold(table, chain, ruleset);
    assert HookedRules[0] == ("ct-state-invalid-drop", CtStateInvalidDrop);
    assert HookedRules[1] == ("ct-state-relatedestablished-accept", CtStateRelatedEstablishedAccept);
    assert HookedRules[2] == ("meta-mark", MetaMarkAccept);
    assert additional == PendingHooks(table, chain, ruleset, HookedRules);
    additional := Reverse(additional);
  }

  /** The commands for every chain of one custom table. */
  method HookTable(table: Table, ruleset: Option<string>) returns (rules: seq<string>)
    ensures rules == TableHooks(table.name, table.chains, ruleset)
  {
    rules := [];
    for j := 0 to |table.chains|
      invariant rules == TableHooks(table.name, table.chains[..j], ruleset)
    {
      var additional := HookChain(table.name, table.chains[j], ruleset);
      assert table.chains[..j + 1][..j] == table.chains[..j];
      rules := rules + additional;
    }
    assert table.chains[..|table.chains|] == table.chains;
  }

  /** `Process for nftables::types::Defaults`, as the engine runs it. */
  method ProcessDefaults(d: NftDefaults, dfw: Dfw<NftDefaults>, ctx: Context) returns (r: Result<Option<seq<string>>>)
    ensures r == DefaultsSection(d, dfw, ctx)
  {
    var rules := InitializationRules(d, dfw);
    var customTables := CustomTables(d, dfw);
    var hooks: seq<string> := [];
    if customTables.Some? {
      var tables := customTables.value;
      for i := 0 to |tables|
        invariant hooks == CustomTableHooks(tables[..i], ctx.currentRuleset)
      {
        var tableHooks := HookTable(tables[i], ctx.currentRuleset);
        assert tables[..i + 1][..i] == tables[..i];
        hooks := hooks + tableHooks;
      }
      assert tables[..|tables|] == tables;
    }
    rules := rules + hooks;
    return Ok(Some(rules));
  }

  /** The chain after inserting each rule of `rules` at its top, in turn. */
  function InsertEachAtTop(chain: seq<string>, rules: seq<string>): seq<string>
    decreases |rules|
  {
    if |rules| == 0 then chain else InsertEachAtTop([rules[0]] + chain, rules[1..])
  }

  /** Inserting the reversed list at the top leaves the rules in their
      original order ahead of what the chain held: the reason the engine
      reverses the hooked rules. */
  lemma {:induction false} ReversedInsertKeepsOrder(chain: seq<string>, rules: seq<string>)
    ensures InsertEachAtTop(chain, Reverse(rules)) == rules + chain
    decreases |rules|
  {
    if |rules| > 0 {
      var n := |rules| - 1;
      var rev := Reverse(rules);
      assert rev[0] == rules[n] && rev[1..] == Reverse(rules[..n]);
      ReversedInsertKeepsOrder([rules[n]] + chain, rules[..n]);
      assert rules[..n] + ([rules[n]] + chain) == rules + chain;
    }
  }

  /** A hooked rule is inserted when its marker is missing from the
      current ruleset, and every inserted command is such a rule; with no
      readable ruleset all three are inserted. */
  lemma HooksAreTheMissingMarkers(table: string, chain: string, ruleset: Option<string>)
    ensures forall k :: (0 <= k < |HookedRules| && !MarkerInCurrentRuleset(ruleset, HookMarker(table, chain, HookedRules[k].0))
                         ==> HookInsert(table, chain, HookedRules[k].0, HookedRules[k].1) in ChainHooks(table, chain, ruleset))
    ensures forall x :: x in ChainHooks(table, chain, ruleset) ==>
      exists k :: 0 <= k < |HookedRules| && !MarkerInCurrentRuleset(ruleset, HookMarker(table, chain, HookedRules[k].0))
        && x == HookInsert(table, chain, HookedRules[k].0, HookedRules[k].1)
    ensures ruleset.None? ==> |ChainHooks(table, chain, ruleset)| == |HookedRules|
  {
    var pending := PendingHooks(table, chain, ruleset, HookedRules);
    PendingHooksUnfold(table, chain, ruleset);
    ReverseMembers(pending);
    forall k | 0 <= k < |HookedRules| && !MarkerInCurrentRuleset(ruleset, HookMarker(table, chain, HookedRules[k].0))
      ensures HookInsert(table, chain, HookedRules[k].0, HookedRules[k].1) in ChainHooks(table, chain, ruleset)
    {
      assert HookStep(table, chain, ruleset, HookedRules[k]) == [HookInsert(table, chain, HookedRules[k].0, HookedRules[k].1)];
      if k == 0 {
      } else if k == 1 {
      } else {
      }
    }
    forall x | x in ChainHooks(table, chain, ruleset)
      ensures exists k :: (0 <= k < |HookedRules| && !MarkerInCurrentRuleset(ruleset, HookMarker(table, chain, HookedRules[k].0))
                           && x == HookInsert(table, chain, HookedRules[k].0, HookedRules[k].1))
    {
      assert x in pending;
      var k := if x in HookStep(table, chain, ruleset, HookedRules[0]) then 0
               else if x in HookStep(table, chain, ruleset, HookedRules[1]) then 1 else 2;
      assert x in HookStep(table, chain, ruleset, HookedRules[k]);
    }
  }

  lemma {:induction false} ReverseMembers<T>(s: seq<T>)
    ensures forall x :: x in Reverse(s) <==> x in s
  {
    if |s| > 0 {
      ReverseMembers(s[..|s| - 1]);
      assert s == s[..|s| - 1] + [s[|s| - 1]];
    }
  }

  /** The backend initialization rules win over the deprecated top-level
      ones, which are used only when the backend section names none, and
      the output starts with them. */
  lemma InitializationFirst(d: NftDefaults, dfw: Dfw<NftDefaults>, ctx: Context)
    ensures var init := InitializationRules(d, dfw);
      DefaultsSection(d, dfw, ctx).Ok? && DefaultsSection(d, dfw, ctx).value.Some?
      && init <= DefaultsSection(d, dfw, ctx).value.value
      && (d.initialization.Some? && d.initialization.value.rules.Some? ==> init == d.initialization.value.rules.value)
      && ((d.initialization.None? || d.initialization.value.rules.None?) && dfw.initialization.Some? && dfw.initialization.value.rules.Some?
          ==> init == dfw.initialization.value.rules.value)
      && ((d.initialization.None? || d.initialization.value.rules.None?) && (dfw.initialization.None? || dfw.initialization.value.rules.None?)
          ==> init == [])
  {
  }

  // ---------------------------------------------------------------------
  // Global defaults

  function BridgeInputRule(bridge: string, p: ChainPolicy): string {
    AddRule(Inet, "dfw", "input", "meta iifname " + bridge + " meta mark set " + DfwMark + " " + ChainPolicyName(p))
  }

  function BridgeForwardRule(bridge: string, iface: string, p: ChainPolicy): string {
    AddRule(Inet, "dfw", "forward",
            "meta iifname " + bridge + " oifname " + iface + " meta mark set " + DfwMark + " " + ChainPolicyName(p))
  }

  /** One forward rule per external interface, in order. */
  function BridgeForwardRules(bridge: string, ifaces: seq<string>, p: ChainPolicy): (r: seq<string>)
    ensures |r| == |ifaces|
  {
    if |ifaces| == 0 then []
    else BridgeForwardRules(bridge, ifaces[..|ifaces| - 1], p) + [BridgeForwardRule(bridge, ifaces[|ifaces| - 1], p)]
  }

  function MasqueradeRule(f: Family, iface: string): string {
    AddRule(f, "dfw", "postrouting", "meta oifname " + iface + " meta mark set " + DfwMark + " masquerade")
  }

  /** Per external interface, an IPv4 then an IPv6 masquerade rule. */
  function MasqueradeRules(ifaces: seq<string>): (r: seq<string>)
    ensures |r| == 2 * |ifaces|
  {
    if |ifaces| == 0 then []
    else
      var i := ifaces[|ifaces| - 1];
      MasqueradeRules(ifaces[..|ifaces| - 1]) + [MasqueradeRule(Ip, i), MasqueradeRule(Ip6, i)]
  }

  /** The rules for the default bridge: none without a network named
      `bridge`, an error when that network has no options, none when the
      options do not name its interface. */
  function BridgeRules(g: GlobalDefaults, ctx: Context): Result<seq<string>> {
    if "bridge" !in ctx.networkMap then Ok([])
    else
      var options := ctx.networkMap["bridge"].options;
      if options.None? then Err(MissingNetworkOptions)
      else if BridgeNameOption !in options.value then Ok([])
      else
        var bridge := options.value[BridgeNameOption];
        var p := g.defaultDockerBridgeToHostPolicy;
        Ok([BridgeInputRule(bridge, p)]
           + (if g.externalNetworkInterfaces.Some? then BridgeForwardRules(bridge, g.externalNetworkInterfaces.value, p) else []))
  }

  /** `Process for GlobalDefaults`. */
  function GlobalDefaultsSection(g: GlobalDefaults, ctx: Context): Result<Option<seq<string>>> {
    var bridgeRules :- BridgeRules(g, ctx);
    Ok(Some(bridgeRules + (if g.externalNetworkInterfaces.Some? then MasqueradeRules(g.externalNetworkInterfaces.value) else [])))
  }

  method PushBridgeForwardRules(rules: seq<string>, bridge: string, ifaces: seq<string>, p: ChainPolicy) returns (out: seq<string>)
    ensures out == rules + BridgeForwardRules(bridge, ifaces, p)
  {
    out := rules;
    for i := 0 to |ifaces|
      invariant out == rules + BridgeForwardRules(bridge, ifaces[..i], p)
    {
      assert ifaces[..i + 1][..i] == ifaces[..i];
      out := out + [AddRule(Inet, "dfw", "forward",
                           "meta iifname " + bridge + " oifname " + ifaces[i] + " meta mark set " + DfwMark + " " + ChainPolicyName(p))];
    }
    assert ifaces[..|ifaces|] == ifaces;
  }

  method PushMasqueradeRules(rules: seq<string>, ifaces: seq<string>) returns (out: seq<string>)
    ensures out == rules + MasqueradeRules(ifaces)
  {
    out := rules;
    for i := 0 to |ifaces|
      invariant out == rules + MasqueradeRules(ifaces[..i])
    {
      assert ifaces[..i + 1][..i] == ifaces[..i];
      out := out + [AddRule(Ip, "dfw", "postrouting", "meta oifname " + ifaces[i] + " meta mark set " + DfwMark + " masquerade")];
      out := out + [AddRule(Ip6, "dfw", "postrouting", "meta oifname " + ifaces[i] + " meta mark set " + DfwMark + " masquerade")];
    }
    assert ifaces[..|ifaces|] == ifaces;
  }

  /** `Process for GlobalDefaults`, as the engine runs it. */
  method ProcessGlobalDefaults(g: GlobalDefaults, ctx: Context) returns (r: Result<Option<seq<string>>>)
    ensures r == GlobalDefaultsSection(g, ctx)
  {
    var rules: seq<string> := [];
    if "bridge" in ctx.networkMap {
      var bridgeNetwork := ctx.networkMap["bridge"];
      if bridgeNetwork.options.None? {
        return Err(MissingNetworkOptions);
      }
      if BridgeNameOption in bridgeNetwork.options.value {
        var bridgeName := bridgeNetwork.options.value[BridgeNameOption];
        assert [] + [BridgeInputRule(bridgeName, g.defaultDockerBridgeToHostPolicy)] == [BridgeInputRule(bridgeName, g.defaultDockerBridgeToHostPolicy)];
        rules := rules + [AddRule(Inet, "dfw", "input", "meta iifname " + bridgeName + " meta mark set " + DfwMark + " "
                                                       + ChainPolicyName(g.defaultDockerBridgeToHostPolicy))];
        if g.externalNetworkInterfaces.Some? {
          rules := PushBridgeForwardRules(rules, bridgeName, g.externalNetworkInterfaces.value, g.defaultDockerBridgeToHostPolicy);
        } else {
          assert rules + [] == rules;
        }
      }
    }
    assert BridgeRules(g, ctx) == Ok(rules);
    if g.externalNetworkInterfaces.Some? {
      rules := PushMasqueradeRules(rules, g.externalNetworkInterfaces.value);
    } else {
      assert rules + [] == rules;
    }
    return Ok(Some(rules));
  }

  /** Every external interface gets an IPv4 and then an IPv6 masquerade
      rule, in the order of the interfaces. */
  lemma {:induction false} MasqueradePerInterface(ifaces: seq<string>, k: int)
    requires 0 <= k < |ifaces|
    ensures MasqueradeRules(ifaces)[2 * k] == MasqueradeRule(Ip, ifaces[k])
    ensures MasqueradeRules(ifaces)[2 * k + 1] == MasqueradeRule(Ip6, ifaces[k])
  {
    var n := |ifaces| - 1;
    if k < n {
      MasqueradePerInterface(ifaces[..n], k);
      assert ifaces[..n][k] == ifaces[k];
    }
  }

  /** The global defaults fail exactly when a network named `bridge`
      exists without options; otherwise the bridge input rule (when the
      bridge is named) leads and the masquerade rules close the output. */
  lemma GlobalDefaultsOutcome(g: GlobalDefaults, ctx: Context)
    ensures GlobalDefaultsSection(g, ctx).Err? <==> "bridge" in ctx.networkMap && ctx.networkMap["bridge"].options.None?
    ensures GlobalDefaultsSection(g, ctx).Ok? ==> GlobalDefaultsSection(g, ctx).value.Some?
    ensures GlobalDefaultsSection(g, ctx).Ok? && g.externalNetworkInterfaces.Some? ==>
      var out := GlobalDefaultsSection(g, ctx).value.value;
      var m := MasqueradeRules(g.externalNetworkInterfaces.value);
      |out| >= |m| && out[|out| - |m|..] == m
  {
  }

  // ---------------------------------------------------------------------
  // Rules added to a chain of the `dfw` table

  /** The rule the fields render to, added to `chain` of the `dfw` table
      of family `f`. */
  function AddRuleOf(f: Family, chain: string, fields: Fields): Result<Option<seq<string>>> {
    match Render(fields)
    case Err(e) => Err(e)
    case Ok(text) => Ok(Some([AddRule(f, "dfw", chain, text)]))
  }

  function AddRuleFn(f: Family, chain: string): Fields -> Result<Option<seq<string>>> {
    fields => AddRuleOf(f, chain, fields)
  }

  /** Builds the rule and adds it to `chain` of the `dfw` table. */
  method EmitRule(b: RuleBuilder, f: Family, chain: string) returns (r: Result<Option<seq<string>>>)
    ensures r == AddRuleOf(f, chain, b.Snapshot())
  {
    var built := b.Build();
    match built {
      case Err(e) => return Err(e);
      case Ok(text) => return Ok(Some([AddRule(f, "dfw", chain, text)]));
    }
  }

  // ---------------------------------------------------------------------
  // Container to container

  /** The builder fields of a container-to-container rule, `None` when its
      network or a named container is not found. */
  function CtcRuleFields(rule: ContainerToContainerRule, ctx: Context): Result<Option<Fields>> {
    if rule.network !in ctx.networkMap then Ok(None)
    else
      var id := ctx.networkMap[rule.network].id;
      var bridge :- GetBridgeName(id);
      var base := Unset.(inInterface := Some(bridge), outInterface := Some(bridge));
      var src :- LookupContainer(ctx, rule.srcContainer, id);
      if src.NotFound? then Ok(None)
      else
        var withSrc := if src.Found? then base.(sourceAddress := Some(Ipv4Of(src.endpoint))) else base;
        var dst :- LookupContainer(ctx, rule.dstContainer, id);
        if dst.NotFound? then Ok(None)
        else
          var withDst := if dst.Found? then withSrc.(destinationAddress := Some(Ipv4Of(dst.endpoint))) else withSrc;
          Ok(Some(withDst.(matches := rule.matches, verdict := Some(rule.verdict))))
  }

  /** `Process for ContainerToContainerRule`: one forward rule. */
  function CtcRule(rule: ContainerToContainerRule, ctx: Context): Result<Option<seq<string>>> {
    var fields :- CtcRuleFields(rule, ctx);
    if fields.None? then Ok(None) else AddRuleOf(Inet, "forward", fields.value)
  }

  function CtcRuleFn(ctx: Context): ContainerToContainerRule -> Result<Option<seq<string>>> {
    rule => CtcRule(rule, ctx)
  }

  /** The same-network rule of one network: traffic entering and leaving
      its bridge gets the verdict. */
  function SameNetworkRule(network: Network, v: RuleVerdict): Result<Option<seq<string>>> {
    var bridge :- GetBridgeName(network.id);
    AddRuleOf(Inet, "forward", Unset.(inInterface := Some(bridge), outInterface := Some(bridge), verdict := Some(v)))
  }

  function SameNetworkFn(v: RuleVerdict): Network -> Result<Option<seq<string>>> {
    network => SameNetworkRule(network, v)
  }

  /** `Process for ContainerToContainer`: the forward chain's policy, the
      explicit rules, then the same-network rules. */
  function CtcSection(c: ContainerToContainer, ctx: Context): Result<Option<seq<string>>> {
    var explicit :- ProcessRules(c.rules, CtcRuleFn(ctx));
    var same :- if c.sameNetworkVerdict.Some? then ProcessAll(ctx.networks, SameNetworkFn(c.sameNetworkVerdict.value)) else Ok([]);
    Ok(Some([SetChainPolicy(Inet, "dfw", "forward", c.defaultPolicy)] + explicit + same))
  }

  method ProcessCtcRule(rule: ContainerToContainerRule, ctx: Context) returns (r: Result<Option<seq<string>>>)
    ensures r == CtcRule(rule, ctx)
  {
    var nftRule := new RuleBuilder();
    if rule.network !in ctx.networkMap {
      return Ok(None);
    }
    var network := ctx.networkMap[rule.network];
    var bridgeName :- GetBridgeName(network.id);
    nftRule.SetInInterface(bridgeName);
    nftRule.SetOutInterface(bridgeName);
    if rule.srcContainer.Some? {
      var srcNetwork :- GetNetworkForContainer(ctx, rule.srcContainer.value, network.id);
      if srcNetwork.None? {
        return Ok(None);
      }
      nftRule.SetSourceAddress(Ipv4Of(srcNetwork.value));
    }
    if rule.dstContainer.Some? {
      var dstNetwork :- GetNetworkForContainer(ctx, rule.dstContainer.value, network.id);
      if dstNetwork.None? {
        return Ok(None);
      }
      nftRule.SetDestinationAddress(Ipv4Of(dstNetwork.value));
    }
    if rule.matches.Some? {
      nftRule.SetMatches(rule.matches.value);
    }
    nftRule.SetVerdict(rule.verdict);
    r := EmitRule(nftRule, Inet, "forward");
  }

  /** The explicit rules of the section, through the `Vec` combinator. */
  method ProcessCtcRules(rules: seq<ContainerToContainerRule>, ctx: Context) returns (r: Result<seq<string>>)
    ensures r == ProcessAll(rules, CtcRuleFn(ctx))
  {
    var acc: seq<string> := [];
    for i := 0 to |rules|
      invariant ProcessAll(rules[..i], CtcRuleFn(ctx)) == Ok(acc)
    {
      ProcessAllStep(rules, i, CtcRuleFn(ctx));
      var sub := ProcessCtcRule(rules[i], ctx);
      if sub.Err? {
        ProcessAllPrefixError(rules, i + 1, CtcRuleFn(ctx));
        return Err(sub.error);
      }
      acc := acc + Contribution(sub.value);
    }
    assert rules[..|rules|] == rules;
    return Ok(acc);
  }

  method ProcessSameNetworkRule(network: Network, v: RuleVerdict) returns (r: Result<Option<seq<string>>>)
    ensures r == SameNetworkRule(network, v)
  {
    var bridgeName :- GetBridgeName(network.id);
    var nftRule := new RuleBuilder();
    nftRule.SetInInterface(bridgeName);
    nftRule.SetOutInterface(bridgeName);
    nftRule.SetVerdict(v);
    r := EmitRule(nftRule, Inet, "forward");
  }

  /** The same-network rules, one network after the other. */
  method ProcessSameNetwork(networks: seq<Network>, v: RuleVerdict) returns (r: Result<seq<string>>)
    ensures r == ProcessAll(networks, SameNetworkFn(v))
  {
    var acc: seq<string> := [];
    for i := 0 to |networks|
      invariant ProcessAll(networks[..i], SameNetworkFn(v)) == Ok(acc)
    {
      ProcessAllStep(networks, i, SameNetworkFn(v));
      var sub := ProcessSameNetworkRule(networks[i], v);
      if sub.Err? {
        ProcessAllPrefixError(networks, i + 1, SameNetworkFn(v));
        return Err(sub.error);
      }
      acc := acc + Contribution(sub.value);
    }
    assert networks[..|networks|] == networks;
    return Ok(acc);
  }

  /** `Process for ContainerToContainer`, as the engine runs it. */
  method ProcessCtc(c: ContainerToContainer, ctx: Context) returns (r: Result<Option<seq<string>>>)
    ensures r == CtcSection(c, ctx)
  {
    var rules := [SetChainPolicy(Inet, "dfw", "forward", c.defaultPolicy)];
    var ctcRules: seq<string> := [];
    if c.rules.Some? {
      ctcRules :- ProcessCtcRules(c.rules.value, ctx);
    }
    assert ProcessRules(c.rules, CtcRuleFn(ctx)) == Ok(ctcRules);
    rules := rules + ctcRules;
    var same: seq<string> := [];
    if c.sameNetworkVerdict.Some? {
      same :- ProcessSameNetwork(ctx.networks, c.sameNetworkVerdict.value);
    }
    rules := rules + same;
    return Ok(Some(rules));
  }

  /** A same-network rule renders as traffic entering and leaving the
      bridge, marked, with the verdict; it fails only on a short network id. */
  lemma SameNetworkRuleText(network: Network, v: RuleVerdict)
    ensures SameNetworkRule(network, v).Err? <==> |network.id| < 12
    ensures SameNetworkRule(network, v).Ok? ==>
      var b := GetBridgeName(network.id).value;
      SameNetworkRule(network, v) == Ok(Some([AddRule(Inet, "dfw", "forward",
        Spaced(["meta", "iifname", b, "oifname", b, "meta", "mark", "set", DfwMark, RuleVerdictName(v)]))]))
  {
    if |network.id| >= 12 {
      var b := GetBridgeName(network.id).value;
      var fields := Unset.(inInterface := Some(b), outInterface := Some(b), verdict := Some(v));
      assert MatchArgs(fields) == ["meta", "iifname", b, "oifname", b];
      assert Trailer(fields) == MarkClause + [RuleVerdictName(v)];
      assert Args(fields) == Ok(["meta", "iifname", b, "oifname", b] + Trailer(fields));
      assert ["meta", "iifname", b, "oifname", b] + Trailer(fields)
        == ["meta", "iifname", b, "oifname", b, "meta", "mark", "set", DfwMark, RuleVerdictName(v)];
    }
  }

  /** The container-to-container output starts with the forward chain's
      policy, and with a same-network verdict it ends with one rule per
      network. */
  lemma CtcShape(c: ContainerToContainer, ctx: Context)
    requires CtcSection(c, ctx).Ok?
    ensures var out := CtcSection(c, ctx).value;
      out.Some? && |out.value| >= 1 && out.value[0] == SetChainPolicy(Inet, "dfw", "forward", c.defaultPolicy)
    ensures c.sameNetworkVerdict.Some? ==>
      var out := CtcSection(c, ctx).value.value;
      var same := ProcessAll(ctx.networks, SameNetworkFn(c.sameNetworkVerdict.value));
      same.Ok? && |same.value| == |ctx.networks| && out[|out| - |ctx.networks|..] == same.value
  {
    if c.sameNetworkVerdict.Some? {
      var v := c.sameNetworkVerdict.value;
      forall x | x in ctx.networks && SameNetworkFn(v)(x).Ok?
        ensures SameNetworkFn(v)(x).value.Some? && |SameNetworkFn(v)(x).value.value| == 1
      {
        SameNetworkRuleText(x, v);
      }
      ProcessAllCount(ctx.networks, SameNetworkFn(v), 1);
    }
  }

  /** A rule whose network is unknown, or whose named source container is
      unknown, contributes nothing. */
  lemma CtcRuleSkipsUnknown(rule: ContainerToContainerRule, ctx: Context)
    requires rule.network !in ctx.networkMap
      || (rule.srcContainer.Some? && rule.srcContainer.value !in ctx.containerMap)
    ensures CtcRule(rule, ctx).Ok? ==> CtcRule(rule, ctx).value.None?
  {
  }

  // ---------------------------------------------------------------------
  // Container to wider world

  /** The builder fields of a container-to-wider-world rule before its
      output interface is set: the network's bridge as input interface,
      the source container's address when it is attached, the matches and
      the verdict. */
  function CtwwRuleFields(rule: ContainerToWiderWorldRule, ctx: Context): Result<Fields> {
    var base :- SourceSide(ctx, rule.network, rule.srcContainer);
    Ok(base.(matches := rule.matches, verdict := Some(rule.verdict)))
  }

  /** The source side of a rule leaving a network: nothing when the
      network is not named or unknown, else its bridge as input interface
      and, when the named container is attached to it, its address. */
  function SourceSide(ctx: Context, network: Option<string>, container: Option<string>): Result<Fields> {
    if network.None? || network.value !in ctx.networkMap then Ok(Unset)
    else
      var id := ctx.networkMap[network.value].id;
      var bridge :- GetBridgeName(id);
      var src :- LookupContainer(ctx, container, id);
      Ok(if src.Found? then Unset.(inInterface := Some(bridge), sourceAddress := Some(Ipv4Of(src.endpoint)))
         else Unset.(inInterface := Some(bridge)))
  }

  /** `Process for ContainerToWiderWorldRule`: the rule must match
      something before the output interface is added. */
  function CtwwRule(rule: ContainerToWiderWorldRule, ctx: Context): Result<Option<seq<string>>> {
    var fields :- CtwwRuleFields(rule, ctx);
    var check :- Render(fields);
    var out := ExternalInterface(rule.externalNetworkInterface, ctx);
    AddRuleOf(Inet, "forward", if out.Some? then fields.(outInterface := out) else fields)
  }

  function CtwwRuleFn(ctx: Context): ContainerToWiderWorldRule -> Result<Option<seq<string>>> {
    rule => CtwwRule(rule, ctx)
  }

  /** The default rule of one network towards one external interface. */
  function WorldDefaultRule(iface: string, network: Network, v: RuleVerdict): Result<Option<seq<string>>> {
    var bridge :- GetBridgeName(network.id);
    AddRuleOf(Inet, "forward", Unset.(inInterface := Some(bridge), outInterface := Some(iface), verdict := Some(v)))
  }

  function WorldDefaultFn(iface: string, v: RuleVerdict): Network -> Result<Option<seq<string>>> {
    network => WorldDefaultRule(iface, network, v)
  }

  /** The default rules towards one external interface, one per network. */
  function WorldDefaultRow(iface: string, networks: seq<Network>, v: RuleVerdict): Result<Option<seq<string>>> {
    match ProcessAll(networks, WorldDefaultFn(iface, v))
    case Err(e) => Err(e)
    case Ok(row) => Ok(Some(row))
  }

  function WorldRowFn(networks: seq<Network>, v: RuleVerdict): string -> Result<Option<seq<string>>> {
    iface => WorldDefaultRow(iface, networks, v)
  }

  /** `Process for ContainerToWiderWorld`: the explicit rules, then the
      default-verdict rules for every external interface and network. */
  function CtwwSection(c: ContainerToWiderWorld, ctx: Context): Result<Option<seq<string>>> {
    var explicit :- ProcessRules(c.rules, CtwwRuleFn(ctx));
    var defaults :- ProcessRules(ctx.externalNetworkInterfaces, WorldRowFn(ctx.networks, c.defaultPolicy));
    Ok(Some(explicit + defaults))
  }

  method ProcessCtwwRule(rule: ContainerToWiderWorldRule, ctx: Context) returns (r: Result<Option<seq<string>>>)
    ensures r == CtwwRule(rule, ctx)
  {
    var nftRule := new RuleBuilder();
    var side :- SetSourceSide(nftRule, ctx, rule.network, rule.srcContainer);
    if rule.matches.Some? {
      nftRule.SetMatches(rule.matches.value);
    }
    nftRule.SetVerdict(rule.verdict);
    ghost var fields := nftRule.Snapshot();
    assert CtwwRuleFields(rule, ctx) == Ok(fields);
    var check := nftRule.Build();
    if check.Err? {
      return Err(check.error);
    }
    SetCtwwOut(nftRule, rule, ctx);
    r := EmitRule(nftRule, Inet, "forward");
  }

  /** Sets the source side of a rule leaving a network on a fresh builder. */
  method SetSourceSide(nftRule: RuleBuilder, ctx: Context, network: Option<string>, container: Option<string>)
    returns (r: Result<Fields>)
    requires nftRule.Snapshot() == Unset
    modifies nftRule
    ensures r == SourceSide(ctx, network, container)
    ensures r.Ok? ==> nftRule.Snapshot() == r.value
  {
    if network.Some? && network.value in ctx.networkMap {
      var net := ctx.networkMap[network.value];
      var bridgeName :- GetBridgeName(net.id);
      nftRule.SetInInterface(bridgeName);
      if container.Some? {
        var srcNetwork :- GetNetworkForContainer(ctx, container.value, net.id);
        if srcNetwork.Some? {
          nftRule.SetSourceAddress(Ipv4Of(srcNetwork.value));
        }
      }
    }
    return Ok(nftRule.Snapshot());
  }

  /** Sets the output interface of a rule leaving for the wider world:
      the rule's own external interface, else the primary one, if any. */
  method SetCtwwOut(nftRule: RuleBuilder, rule: ContainerToWiderWorldRule, ctx: Context)
    modifies nftRule
    ensures var out := ExternalInterface(rule.externalNetworkInterface, ctx);
      nftRule.Snapshot() == if out.Some? then old(nftRule.Snapshot()).(outInterface := out) else old(nftRule.Snapshot())
  {
    if rule.externalNetworkInterface.Some? {
      nftRule.SetOutInterface(rule.externalNetworkInterface.value);
    } else if Primary(ctx).Some? {
      nftRule.SetOutInterface(Primary(ctx).value);
    }
  }

  method ProcessCtwwRules(rules: seq<ContainerToWiderWorldRule>, ctx: Context) returns (r: Result<seq<string>>)
    ensures r == ProcessAll(rules, CtwwRuleFn(ctx))
  {
    var acc: seq<string> := [];
    for i := 0 to |rules|
      invariant ProcessAll(rules[..i], CtwwRuleFn(ctx)) == Ok(acc)
    {
      ProcessAllStep(rules, i, CtwwRuleFn(ctx));
      var sub := ProcessCtwwRule(rules[i], ctx);
      if sub.Err? {
        ProcessAllPrefixError(rules, i + 1, CtwwRuleFn(ctx));
        return Err(sub.error);
      }
      acc := acc + Contribution(sub.value);
    }
    assert rules[..|rules|] == rules;
    return Ok(acc);
  }

  method ProcessWorldDefaultRule(iface: string, network: Network, v: RuleVerdict) returns (r: Result<Option<seq<string>>>)
    ensures r == WorldDefaultRule(iface, network, v)
  {
    var bridgeName :- GetBridgeName(network.id);
    var nftRule := new RuleBuilder();
    nftRule.SetInInterface(bridgeName);
    nftRule.SetOutInterface(iface);
    nftRule.SetVerdict(v);
    r := EmitRule(nftRule, Inet, "forward");
  }

  /** The default rules towards one interface, one network after the other. */
  method ProcessWorldDefaultRow(iface: string, networks: seq<Network>, v: RuleVerdict) returns (r: Result<Option<seq<string>>>)
    ensures r == WorldDefaultRow(iface, networks, v)
  {
    var acc: seq<string> := [];
    for i := 0 to |networks|
      invariant ProcessAll(networks[..i], WorldDefaultFn(iface, v)) == Ok(acc)
    {
      ProcessAllStep(networks, i, WorldDefaultFn(iface, v));
      var sub := ProcessWorldDefaultRule(iface, networks[i], v);
      if sub.Err? {
        ProcessAllPrefixError(networks, i + 1, WorldDefaultFn(iface, v));
        return Err(sub.error);
      }
      acc := acc + Contribution(sub.value);
    }
    assert networks[..|networks|] == networks;
    return Ok(Some(acc));
  }

  /** The default rules for every external interface, in order. */
  method ProcessWorldDefaults(ifaces: seq<string>, networks: seq<Network>, v: RuleVerdict) returns (r: Result<seq<string>>)
    ensures r == ProcessAll(ifaces, WorldRowFn(networks, v))
  {
    var acc: seq<string> := [];
    for i := 0 to |ifaces|
      invariant ProcessAll(ifaces[..i], WorldRowFn(networks, v)) == Ok(acc)
    {
      ProcessAllStep(ifaces, i, WorldRowFn(networks, v));
      var sub := ProcessWorldDefaultRow(ifaces[i], networks, v);
      if sub.Err? {
        ProcessAllPrefixError(ifaces, i + 1, WorldRowFn(networks, v));
        return Err(sub.error);
      }
      acc := acc + Contribution(sub.value);
    }
    assert ifaces[..|ifaces|] == ifaces;
    return Ok(acc);
  }

  /** `Process for ContainerToWiderWorld`, as the engine runs it. */
  method ProcessCtww(c: ContainerToWiderWorld, ctx: Context) returns (r: Result<Option<seq<string>>>)
    ensures r == CtwwSection(c, ctx)
  {
    var rules: seq<string> := [];
    if c.rules.Some? {
      rules :- ProcessCtwwRules(c.rules.value, ctx);
    }
    var defaults: seq<string> := [];
    if ctx.externalNetworkInterfaces.Some? {
      defaults :- ProcessWorldDefaults(ctx.externalNetworkInterfaces.value, ctx.networks, c.defaultPolicy);
    }
    rules := rules + defaults;
    return Ok(Some(rules));
  }

  /** Without a known network the rule matches nothing of its own, and is
      refused even when an output interface would be available. */
  lemma CtwwNeedsNetwork(rule: ContainerToWiderWorldRule, ctx: Context)
    requires rule.network.None? || rule.network.value !in ctx.networkMap
    ensures CtwwRule(rule, ctx) == Err(NoMatchCriterion)
  {
    RenderFailsIffNoCriterion(Unset.(matches := rule.matches, verdict := Some(rule.verdict)));
  }

  /** A rule naming its own external interface does not depend on the
      configured external interfaces; one that does not name it leaves
      through the primary interface. */
  lemma CtwwOwnInterfaceWins(rule: ContainerToWiderWorldRule, ctx: Context, ifaces: Option<seq<string>>)
    requires rule.externalNetworkInterface.Some?
    ensures CtwwRule(rule, ctx) == CtwwRule(rule, ctx.(externalNetworkInterfaces := ifaces))
  {
    var other := ctx.(externalNetworkInterfaces := ifaces);
    SourceSideIgnoresInterfaces(ctx, other, rule.network, rule.srcContainer);
    assert CtwwRuleFields(rule, other) == CtwwRuleFields(rule, ctx);
    assert ExternalInterface(rule.externalNetworkInterface, other) == ExternalInterface(rule.externalNetworkInterface, ctx);
  }

  /** The source side reads only the networks, containers and endpoints. */
  lemma SourceSideIgnoresInterfaces(ctx: Context, other: Context, network: Option<string>, container: Option<string>)
    requires other.networkMap == ctx.networkMap && other.containerMap == ctx.containerMap && other.endpoints == ctx.endpoints
    ensures SourceSide(other, network, container) == SourceSide(ctx, network, container)
  {
    if network.Some? && network.value in ctx.networkMap {
      var id := ctx.networkMap[network.value].id;
      assert LookupContainer(other, container, id) == LookupContainer(ctx, container, id);
    }
  }

  /** A rule that matches on its network leaves through the primary
      interface when it names none, and through no particular interface
      when there is none. */
  lemma CtwwPrimaryInterface(rule: ContainerToWiderWorldRule, ctx: Context)
    requires rule.externalNetworkInterface.None?
    requires CtwwRuleFields(rule, ctx).Ok? && HasMatchCriterion(CtwwRuleFields(rule, ctx).value)
    ensures var fields := CtwwRuleFields(rule, ctx).value;
      CtwwRule(rule, ctx)
      == AddRuleOf(Inet, "forward", if Primary(ctx).Some? then fields.(outInterface := Primary(ctx)) else fields)
    ensures CtwwRule(rule, ctx).Ok?
  {
    var fields := CtwwRuleFields(rule, ctx).value;
    RenderFailsIffNoCriterion(fields);
    RenderFailsIffNoCriterion(fields.(outInterface := Primary(ctx)));
  }

  /** With every network bridged, the defaults hold one rule per external
      interface and network. */
  lemma WorldDefaultsCount(ifaces: seq<string>, networks: seq<Network>, v: RuleVerdict)
    ensures ProcessAll(ifaces, WorldRowFn(networks, v)).Ok? ==>
      |ProcessAll(ifaces, WorldRowFn(networks, v)).value| == |networks| * |ifaces|
  {
    forall iface | iface in ifaces && WorldRowFn(networks, v)(iface).Ok?
      ensures WorldRowFn(networks, v)(iface).value.Some? && |WorldRowFn(networks, v)(iface).value.value| == |networks|
    {
      forall n | n in networks && WorldDefaultFn(iface, v)(n).Ok?
        ensures WorldDefaultFn(iface, v)(n).value.Some? && |WorldDefaultFn(iface, v)(n).value.value| == 1
      {
        var b := GetBridgeName(n.id).value;
        RenderFailsIffNoCriterion(Unset.(inInterface := Some(b), outInterface := Some(iface), verdict := Some(v)));
      }
      ProcessAllCount(networks, WorldDefaultFn(iface, v), 1);
    }
    ProcessAllCount(ifaces, WorldRowFn(networks, v), |networks|);
  }

  // ---------------------------------------------------------------------
  // Container to host

  /** The builder fields of a container-to-host rule, `None` when its
      network is unknown; a named container that is not attached leaves
      the rule for the whole network. */
  function CthRuleFields(rule: ContainerToHostRule, ctx: Context): Result<Option<Fields>> {
    if rule.network !in ctx.networkMap then Ok(None)
    else
      var id := ctx.networkMap[rule.network].id;
      var bridge :- GetBridgeName(id);
      var src :- LookupContainer(ctx, rule.srcContainer, id);
      var base := if src.Found? then Unset.(inInterface := Some(bridge), sourceAddress := Some(Ipv4Of(src.endpoint)))
                  else Unset.(inInterface := Some(bridge));
      Ok(Some(base.(matches := rule.matches, verdict := Some(rule.verdict))))
  }

  /** `Process for ContainerToHostRule`: one input rule. */
  function CthRule(rule: ContainerToHostRule, ctx: Context): Result<Option<seq<string>>> {
    var fields :- CthRuleFields(rule, ctx);
    if fields.None? then Ok(None) else AddRuleOf(Inet, "input", fields.value)
  }

  function CthRuleFn(ctx: Context): ContainerToHostRule -> Result<Option<seq<string>>> {
    rule => CthRule(rule, ctx)
  }

  /** The default rule of one network towards the host. */
  function HostDefaultRule(network: Network, v: RuleVerdict): Result<Option<seq<string>>> {
    var bridge :- GetBridgeName(network.id);
    AddRuleOf(Inet, "input", Unset.(inInterface := Some(bridge), verdict := Some(v)))
  }

  function HostDefaultFn(v: RuleVerdict): Network -> Result<Option<seq<string>>> {
    network => HostDefaultRule(network, v)
  }

  /** `Process for ContainerToHost`: the explicit rules, then one default
      rule per network. */
  function CthSection(c: ContainerToHost, ctx: Context): Result<Option<seq<string>>> {
    var explicit :- ProcessRules(c.rules, CthRuleFn(ctx));
    var defaults :- ProcessAll(ctx.networks, HostDefaultFn(c.defaultPolicy));
    Ok(Some(explicit + defaults))
  }

  method ProcessCthRule(rule: ContainerToHostRule, ctx: Context) returns (r: Result<Option<seq<string>>>)
    ensures r == CthRule(rule, ctx)
  {
    var nftRule := new RuleBuilder();
    if rule.network !in ctx.networkMap {
      return Ok(None);
    }
    var network := ctx.networkMap[rule.network];
    var bridgeName :- GetBridgeName(network.id);
    nftRule.SetInInterface(bridgeName);
    if rule.srcContainer.Some? {
      var srcNetwork :- GetNetworkForContainer(ctx, rule.srcContainer.value, network.id);
      if srcNetwork.Some? {
        nftRule.SetSourceAddress(Ipv4Of(srcNetwork.value));
      }
    }
    if rule.matches.Some? {
      nftRule.SetMatches(rule.matches.value);
    }
    nftRule.SetVerdict(rule.verdict);
    r := EmitRule(nftRule, Inet, "input");
  }

  method ProcessCthRules(rules: seq<ContainerToHostRule>, ctx: Context) returns (r: Result<seq<string>>)
    ensures r == ProcessAll(rules, CthRuleFn(ctx))
  {
    var acc: seq<string> := [];
    for i := 0 to |rules|
      invariant ProcessAll(rules[..i], CthRuleFn(ctx)) == Ok(acc)
    {
      ProcessAllStep(rules, i, CthRuleFn(ctx));
      var sub := ProcessCthRule(rules[i], ctx);
      if sub.Err? {
        ProcessAllPrefixError(rules, i + 1, CthRuleFn(ctx));
        return Err(sub.error);
      }
      acc := acc + Contribution(sub.value);
    }
    assert rules[..|rules|] == rules;
    return Ok(acc);
  }

  method ProcessHostDefaultRule(network: Network, v: RuleVerdict) returns (r: Result<Option<seq<string>>>)
    ensures r == HostDefaultRule(network, v)
  {
    var bridgeName :- GetBridgeName(network.id);
    var nftRule := new RuleBuilder();
    nftRule.SetInInterface(bridgeName);
    nftRule.SetVerdict(v);
    r := EmitRule(nftRule, Inet, "input");
  }

  method ProcessHostDefaults(networks: seq<Network>, v: RuleVerdict) returns (r: Result<seq<string>>)
    ensures r == ProcessAll(networks, HostDefaultFn(v))
  {
    var acc: seq<string> := [];
    for i := 0 to |networks|
      invariant ProcessAll(networks[..i], HostDefaultFn(v)) == Ok(acc)
    {
      ProcessAllStep(networks, i, HostDefaultFn(v));
      var sub := ProcessHostDefaultRule(networks[i], v);
      if sub.Err? {
        ProcessAllPrefixError(networks, i + 1, HostDefaultFn(v));
        return Err(sub.error);
      }
      acc := acc + Contribution(sub.value);
    }
    assert networks[..|networks|] == networks;
    return Ok(acc);
  }

  /** `Process for ContainerToHost`, as the engine runs it. */
  method ProcessCth(c: ContainerToHost, ctx: Context) returns (r: Result<Option<seq<string>>>)
    ensures r == CthSection(c, ctx)
  {
    var rules: seq<string> := [];
    if c.rules.Some? {
      rules :- ProcessCthRules(c.rules.value, ctx);
    }
    var defaults :- ProcessHostDefaults(ctx.networks, c.defaultPolicy);
    rules := rules + defaults;
    return Ok(Some(rules));
  }

  /** Unlike the container-to-container rules, a container-to-host rule
      whose source container is not attached to the network is not
      dropped: it applies to the whole network. */
  lemma CthUnattachedSourceWidens(rule: ContainerToHostRule, ctx: Context)
    requires rule.network in ctx.networkMap && rule.srcContainer.Some?
    requires GetNetworkForContainer(ctx, rule.srcContainer.value, ctx.networkMap[rule.network].id) == Ok(None)
    ensures CthRule(rule, ctx) == CthRule(rule.(srcContainer := None), ctx)
  {
  }

  /** A rule on a known network is always emitted unless the network's id
      is too short or the container inspection fails; it never lacks a
      match criterion. */
  lemma CthRuleOutcome(rule: ContainerToHostRule, ctx: Context)
    requires rule.network in ctx.networkMap
    ensures var id := ctx.networkMap[rule.network].id;
      CthRule(rule, ctx).Err? <==> GetBridgeName(id).Err? || LookupContainer(ctx, rule.srcContainer, id).Err?
    ensures CthRule(rule, ctx).Ok? ==> CthRule(rule, ctx).value.Some? && |CthRule(rule, ctx).value.value| == 1
  {
    var fields := CthRuleFields(rule, ctx);
    if fields.Ok? {
      RenderFailsIffNoCriterion(fields.value.value);
    }
  }

  /** With every network bridged, the defaults hold one rule per network. */
  lemma HostDefaultsCount(networks: seq<Network>, v: RuleVerdict)
    ensures ProcessAll(networks, HostDefaultFn(v)).Ok? ==> |ProcessAll(networks, HostDefaultFn(v)).value| == |networks|
  {
    forall n | n in networks && HostDefaultFn(v)(n).Ok?
      ensures HostDefaultFn(v)(n).value.Some? && |HostDefaultFn(v)(n).value.value| == 1
    {
      var b := GetBridgeName(n.id).value;
      RenderFailsIffNoCriterion(Unset.(inInterface := Some(b), verdict := Some(v)));
    }
    ProcessAllCount(networks, HostDefaultFn(v), 1);
  }
}
