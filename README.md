# dfw — a Dafny model of the rule engine

dfw (Docker firewall) turns a firewall configuration and a snapshot of the
Docker networks and containers into an ordered list of firewall commands, for
one of two backends: `nft` command lines for nftables, or `iptables-restore`
input for iptables. This project models that engine and proves properties
about it:

- the nftables rule builder (`RuleBuilder`, `src/rule.rs`) and the iptables
  rule builder (`Rule`, `src/iptables/rule.rs`), as classes whose setters
  update one field and whose `Build` renders the rule text
  (`nft_rule.dfy`, `ipt_rule.dfy`);
- the nft command templates and the family, chain type, hook, policy and
  verdict enums with their priorities (`nft_commands.dfy`, `nft_types.dfy`);
- the iptables rule representation, the chain helpers and the
  `iptables-restore` serializer that groups rules by table and chain
  (`ipt_restore.dfy`, `ipt_commands.dfy`);
- every `Process` implementation of both backends: the prologue, the
  section order, the defaults with their deprecated fallbacks and
  custom-table hooks, and the generators for container-to-container,
  container-to-wider-world, container-to-host, wider-world-to-container
  (port forwarding) and container DNAT (`nft_sections.dfy`,
  `nft_forward.dfy`, `nft_process.dfy`, `ipt_sections.dfy`,
  `ipt_forward.dfy`, `ipt_process.dfy`);
- the shared helpers of `src/process.rs`: the `Option` and `Vec`
  combinators, the container and network maps, bridge names, markers and
  the primary external interface (`process.dfy`); `src/docker.rs:8-34`
  holds the same two map builders and is covered by the same members;
- the logging and no-op iptables execution strategies (`ipt_exec.dfy`);
- the release helper that extracts the current section of the changelog
  (`changelog.dfy`).

The configuration types live in `config.dfy`; `text.dfy` and `wrappers.dfy`
hold string helpers (splitting, joining, decimal rendering, byte order) and
the `Option`/`Result` types.

Every processor is written twice: as a function stating its output, and as
a method that builds the same output the way the engine does, with rule
builders, `push`/`append` on a list and loops over rules, ports, CIDRs and
networks; each method's `ensures` ties it to its function. The Docker state
(the container and network maps, the endpoints that `docker inspect` would
report, and the order in which the network map is iterated) is an input:
`Process.Context`.

## Model

| member | source | states |
|---|---|---|
| Process.NonEmpty | src/process.rs:1257-1261 | the map comes back as `None` exactly when it is empty, otherwise unchanged |
| Process.GetContainerMap | src/process.rs:1247-1262 | never fails; yields the name-keyed container map, `None` when no container has a name |
| Process.InsertNamesLookup | src/process.rs:1249-1255 | inserting one container's names adds exactly those keys (leading `/` removed), each mapped to that container, and keeps every other key |
| Process.ContainerMapLookup | src/process.rs:1247-1256 | a key is present iff some container has a name stored under it, and it maps to the last such container |
| Process.ContainerMapEmpty | src/process.rs:1257-1261 | the container map is empty iff no container has a name |
| Process.GetNetworkMap | src/process.rs:1264-1275 | never fails; yields the name-keyed network map, `None` when there is no network |
| Process.NetworkMapLookup | src/process.rs:1264-1275 | networks are keyed by name, the last network of a name wins, and the map is empty iff the list is |
| Process.NetworkMapKeys | src/process.rs:1264-1275 | a name is a key of the network map iff some network has that name |
| Process.NetworkMapLastWins | src/process.rs:1264-1275 | a name maps to a network of that name that no later network shares |
| Process.NetworksListMap | src/process.rs:1075 | when the listed networks are the values of the network map, each once under its own name, there are as many of them as the map has networks, so the per-entry counts of the section lemmas are per Docker network |
| Process.GetBridgeName | src/process.rs:1218-1223 | fails iff the id is shorter than 12 characters; otherwise `br-` plus the id's first 12 characters (15 characters) |
| Process.BridgeNameSharedIff | src/process.rs:1218-1223 | two networks get the same bridge name iff their ids agree on the first 12 characters |
| Process.GetNetworkForContainer | src/process.rs:1225-1245 | unknown container: `None` without inspecting; inspection failure: error; otherwise the container's endpoint in that network, `None` when not attached |
| Process.Ipv4Of | src/nftables/process.rs:403-410 | the address part before the first `/`, a prefix of the reported address |
| Process.GenerateMarker | src/process.rs:1278-1280 | the marker starts with `DFW-MARKER:` |
| Process.MarkerComponents | src/process.rs:1278-1280 | the components of a marker made of `;`-free components can be read back by splitting at `;` |
| Process.MarkerInCurrentRuleset | src/process.rs:1179-1185 | true iff a ruleset was read and the marker occurs in it |
| Process.PrimaryExternalInterface | src/process.rs:1118-1126 | the primary interface exists iff an interface list with an element is configured, and is its first element |
| Process.ExternalInterface | src/nftables/process.rs:571-580 | a rule's own external interface wins; otherwise the primary one |
| Process.LookupContainer | src/nftables/process.rs:515-535 | no container named: nothing looked up; otherwise fails exactly when the network lookup fails, and a found endpoint is the container's endpoint in that network |
| Process.ProcessOption | src/process.rs:72-82 | an absent section yields `Ok(None)`, a present one what its processor yields |
| Process.ProcessVec | src/process.rs:84-98 | the items are processed in order and their outputs appended; the first error ends the run; success always yields `Some` |
| Process.ProcessAllAppend | src/process.rs:84-98 | processing a concatenation is processing both halves and appending, failing with the first half's error first |
| Process.ProcessAllError | src/process.rs:84-98 | the run fails iff some item fails, and then with the first failing item's error |
| Process.ProcessAllCount | src/process.rs:84-98 | when every item yields exactly k elements, a successful run yields k per item |
| Process.ProcessAllEach | src/process.rs:84-98 | when each item yields exactly one given element, the run yields those elements in item order |
| Process.ProcessAllFirst | src/process.rs:84-98 | the first item's output leads a successful run |
| Process.ProcessAllSkipHead | src/process.rs:90-92 | a leading item that yields `None` leaves the result of the rest unchanged |
| Process.ProcessAllSkip | src/process.rs:90-92 | an item that yields `None` can be dropped from the list without changing the result |
| Process.ProcessAllPrefixError | src/process.rs:88-95 | once a prefix fails, the whole list fails with that error |
| Process.AppendSections | src/iptables/process.rs:116-128 | the engine's final loop equals appending the sections' outputs in order, stopping at the first error |
| NftTypes.FamilyName | src/nftables.rs:14-31 | a family prints as one non-empty word |
| NftTypes.ChainTypeName | src/nftables.rs:38-66 | a chain type prints as one non-empty word |
| NftTypes.HookName | src/nftables.rs:82-100 | a hook prints as one non-empty word |
| NftTypes.NamesInjective | src/nftables.rs:14-100 | distinct families, chain types and hooks print differently |
| NftTypes.ChainPolicyName | src/nftables.rs:105-121 | a policy prints in lower case, and both that spelling and its upper-case form parse back to the policy |
| NftTypes.ParseChainPolicy | src/nftables.rs:105-121 | parsing succeeds exactly on `accept`, `ACCEPT`, `drop` and `DROP` |
| NftTypes.ChainPolicyParsePrint | src/nftables.rs:258-270 | whatever parses is the policy's display or its upper-case form |
| NftTypes.RuleVerdictName | src/nftables.rs:143-164 | a verdict prints as one lower-case word that parses back to it |
| NftTypes.RuleVerdictUpperCase | src/nftables.rs:143-164 | the upper-case spelling of a verdict parses back to it |
| NftTypes.ParseRuleVerdict | src/nftables.rs:143-164 | parsing succeeds exactly on the lower- and upper-case spellings of accept, drop and reject |
| NftTypes.DfwPriorities | src/nftables/mod.rs:23-31 | the DFW chains run five priority steps ahead of netfilter's chains of the same hook (-105, -5, 95), within `i16` |
| NftCommands.TableCommandWords | src/nftables.rs:183-197 | `add`, `flush` and `delete table` read back as verb, `table`, family name, table |
| NftCommands.AddChainWords | src/nftables.rs:198-202 | a plain chain reads back as `add chain`, family, table, chain |
| NftCommands.AddBaseChainWords | src/nftables.rs:203-217 | a base chain reads back as the plain chain and then `{ type T hook H priority P ; }` |
| NftCommands.SetChainPolicyWords | src/nftables.rs:218-225 | a policy command reads back as the plain chain and then `{ policy p ; }` |
| NftCommands.AddRuleWords | src/nftables.rs:226-230 | an added rule reads back as `add rule`, family, table, chain, then the rule's own words |
| NftCommands.InsertRuleWords | src/nftables.rs:231-250 | an inserted rule reads like an added one with the verb `insert`, and `position N` before the rule only when a position is given |
| NftCommands.InsertWithoutPosition | src/nftables.rs:231-250 | inserting without a position differs from adding only in the verb |
| NftRule.RuleBuilder.constructor | src/rule.rs:11-13 | a new builder has every field unset |
| NftRule.RuleBuilder.Clone | src/rule.rs:11 | a clone is a fresh builder with the same fields |
| NftRule.RuleBuilder.SetInInterface | src/rule.rs:14-15 | sets `inInterface` and leaves every other field as it was |
| NftRule.RuleBuilder.SetOutInterface | src/rule.rs:16-17 | sets `outInterface` and leaves every other field as it was |
| NftRule.RuleBuilder.SetSourceAddress | src/rule.rs:18-19 | sets `sourceAddress` and leaves every other field as it was |
| NftRule.RuleBuilder.SetDestinationAddress | src/rule.rs:20-21 | sets `destinationAddress` and leaves every other field as it was |
| NftRule.RuleBuilder.SetSourceAddressV6 | src/rule.rs:22-23 | sets `sourceAddressV6` and leaves every other field as it was |
| NftRule.RuleBuilder.SetDestinationAddressV6 | src/rule.rs:24-25 | sets `destinationAddressV6` and leaves every other field as it was |
| NftRule.RuleBuilder.SetProtocol | src/rule.rs:26-27 | sets `protocol` and leaves every other field as it was |
| NftRule.RuleBuilder.SetSourcePort | src/rule.rs:28-29 | sets `sourcePort` and leaves every other field as it was |
| NftRule.RuleBuilder.SetDestinationPort | src/rule.rs:30-31 | sets `destinationPort` and leaves every other field as it was |
| NftRule.RuleBuilder.SetMatches | src/rule.rs:32-33 | sets `matches` and leaves every other field as it was |
| NftRule.RuleBuilder.SetComment | src/rule.rs:34-35 | sets `comment` and leaves every other field as it was |
| NftRule.RuleBuilder.SetVerdict | src/rule.rs:36-37 | sets `verdict` and leaves every other field as it was |
| NftRule.RuleBuilder.SetDnat | src/rule.rs:38-39 | sets `dnat` and leaves every other field as it was |
| NftRule.RuleBuilder.Build | src/rule.rs:43-123 | the built rule is the rendering of the builder's fields; it fails iff no port, address or interface is set |
| NftRule.PushMatchClauses | src/rule.rs:44-94 | the pushed pieces are the port, address and interface clauses in that order |
| NftRule.PushPortClause | src/rule.rs:46-57 | appends the protocol (default `tcp`) and the ports only when a port is set |
| NftRule.PushAddressClause | src/rule.rs:59-81 | appends `saddr` then `daddr` of one IP version, each only when set |
| NftRule.PushInterfaceClause | src/rule.rs:83-94 | appends one `meta` and then `iifname`/`oifname` when either interface is set |
| NftRule.PushTailClauses | src/rule.rs:101-122 | after a non-empty match part, the pieces pushed complete the successful rendering |
| NftRule.MatchArgsEmptyIff | src/rule.rs:96-99 | the match part is empty iff no port, address or interface is set |
| NftRule.RenderFailsIffNoCriterion | src/rule.rs:96-99 | `build` fails iff no port, address or interface is set; free-form matches, verdict, DNAT or comment alone are not enough |
| NftRule.ProtocolNeedsPort | src/rule.rs:47-48 | a protocol set without any port leaves the rendered rule unchanged |
| NftRule.PortMatchLeads | src/rule.rs:46-57 | a port match opens the rule with the protocol (`tcp` by default), then `sport` or `dport` |
| NftRule.MarkFollowsMatches | src/rule.rs:101-105 | `meta mark set 0xdf` comes right after the match clauses |
| NftRule.InterfacesShareMeta | src/rule.rs:84-94 | one `meta` keyword introduces both interface names, at the end of the match clauses |
| NftRule.VerdictSuppressesDnat | src/rule.rs:111-116 | with a verdict the DNAT target is not rendered; without one it closes the rule |
| NftRule.CommentIsLast | src/rule.rs:118-120 | a comment is the last piece, quoted |
| NftSections.PushHook | src/nftables/process.rs:203-221 | one marker expansion appends the tagged insertion exactly when the marker is not found in the current ruleset |
| NftSections.HookChain | src/nftables/process.rs:196-239 | the commands for one custom chain are the pending insertions, reversed |
| NftSections.HookTable | src/nftables/process.rs:195-240 | the commands for one custom table are those of its chains, in order |
| NftSections.ProcessDefaults | src/nftables/process.rs:128-246 | the backend defaults produce the initialization rules followed by the hooks of every chain of every custom table |
| NftSections.ReversedInsertKeepsOrder | src/nftables/process.rs:235-239 | inserting the reversed list one rule at a time at the top of a chain leaves the rules in their original order ahead of the chain |
| NftSections.HooksAreTheMissingMarkers | src/nftables/process.rs:203-233 | a hooked rule is inserted iff its marker is missing from the current ruleset; with no readable ruleset all three are inserted |
| NftSections.InitializationFirst | src/nftables/process.rs:134-160 | the backend initialization rules win over the deprecated top-level ones, which are used only when the backend names none; the output starts with them and never fails |
| NftSections.PushBridgeForwardRules | src/nftables/process.rs:272-287 | appends one forward rule from the default bridge per external interface, in order |
| NftSections.PushMasqueradeRules | src/nftables/process.rs:292-314 | appends an IPv4 and then an IPv6 masquerade rule per external interface |
| NftSections.BridgeForwardRules | src/nftables/process.rs:273-286 | one forward rule per external interface |
| NftSections.MasqueradeRules | src/nftables/process.rs:293-313 | two masquerade rules per external interface |
| NftSections.ProcessGlobalDefaults | src/nftables/process.rs:248-317 | the global defaults produce the bridge input and forward rules, then the masquerade rules |
| NftSections.MasqueradePerInterface | src/nftables/process.rs:292-313 | rules 2k and 2k+1 of the masquerade block are the IPv4 and IPv6 masquerade of interface k |
| NftSections.GlobalDefaultsOutcome | src/nftables/process.rs:252-316 | the global defaults fail iff a network named `bridge` has no options; otherwise the masquerade rules close the output |
| NftSections.EmitRule | src/nftables/process.rs:448-449 | building the rule and adding it to a `dfw` chain gives the rule the builder's fields render to, or the build error |
| NftSections.ProcessCtcRule | src/nftables/process.rs:360-453 | a container-to-container rule yields one forward rule, or nothing when its network or a named container is not found |
| NftSections.ProcessCtcRules | src/process.rs:84-98 | the explicit rules are processed in order through the `Vec` combinator |
| NftSections.ProcessSameNetworkRule | src/nftables/process.rs:335-352 | one same-network rule per network, from its bridge to itself |
| NftSections.ProcessSameNetwork | src/nftables/process.rs:333-354 | the same-network rules, one network after the other |
| NftSections.ProcessCtc | src/nftables/process.rs:319-358 | the forward chain's policy, then the explicit rules, then the same-network rules |
| NftSections.SameNetworkRuleText | src/nftables/process.rs:335-352 | a same-network rule fails iff the network id is shorter than 12 characters, and otherwise matches traffic entering and leaving the bridge, marked, with the verdict |
| NftSections.CtcShape | src/nftables/process.rs:322-354 | a successful output starts with the forward policy and, with a same-network verdict, ends with one rule per network |
| NftSections.CtcRuleSkipsUnknown | src/nftables/process.rs:364-391 | a rule whose network or named source container is unknown contributes nothing |
| NftSections.ProcessCtwwRule | src/nftables/process.rs:501-591 | a container-to-wider-world rule is refused when nothing but the interface would match, and otherwise is added to the forward chain |
| NftSections.SetSourceSide | src/nftables/process.rs:509-552 | on a fresh builder, sets the bridge as input interface and the attached source container's address, exactly as the source-side specification says, or fails with the lookup's error |
| NftSections.SetCtwwOut | src/nftables/process.rs:565-578 | the output interface becomes the rule's own external interface, else the primary one, else stays unset; nothing else changes |
| NftSections.ProcessCtwwRules | src/process.rs:84-98 | the explicit rules are processed in order through the `Vec` combinator |
| NftSections.ProcessWorldDefaultRule | src/nftables/process.rs:475-492 | one default rule from a network's bridge to one external interface |
| NftSections.ProcessWorldDefaultRow | src/nftables/process.rs:474-493 | the default rules towards one interface, one network after the other |
| NftSections.ProcessWorldDefaults | src/nftables/process.rs:464-495 | the default rules for every external interface, in order |
| NftSections.ProcessCtww | src/nftables/process.rs:455-499 | the explicit rules, then the default-policy rules for every interface and network |
| NftSections.CtwwNeedsNetwork | src/nftables/process.rs:509-568 | without a known network the rule has no match criterion and is refused, whatever its interface |
| NftSections.CtwwOwnInterfaceWins | src/nftables/process.rs:570-573 | a rule naming its own external interface does not depend on the configured external interfaces |
| NftSections.SourceSideIgnoresInterfaces | src/nftables/process.rs:509-553 | the source side depends only on the networks, containers and endpoints |
| NftSections.CtwwPrimaryInterface | src/nftables/process.rs:574-582 | a rule naming no interface leaves through the primary external interface, or through no particular interface when there is none, and then always builds |
| NftSections.WorldDefaultsCount | src/nftables/process.rs:469-494 | when it succeeds, the default block holds one rule per external interface and network |
| NftSections.ProcessCthRule | src/nftables/process.rs:624-694 | a container-to-host rule yields one input rule, or nothing when its network is unknown |
| NftSections.ProcessCthRules | src/process.rs:84-98 | the explicit rules are processed in order through the `Vec` combinator |
| NftSections.ProcessHostDefaultRule | src/nftables/process.rs:603-617 | one default input rule per network's bridge |
| NftSections.ProcessHostDefaults | src/nftables/process.rs:602-618 | the default input rules, one network after the other |
| NftSections.ProcessCth | src/nftables/process.rs:593-622 | the explicit rules, then one default rule per network |
| NftSections.CthUnattachedSourceWidens | src/nftables/process.rs:648-667 | a source container not attached to the network does not drop the rule: it then applies to the whole network |
| NftSections.CthRuleOutcome | src/nftables/process.rs:632-690 | on a known network the rule fails iff the id is too short or the container inspection fails, and otherwise yields exactly one rule |
| NftSections.HostDefaultsCount | src/nftables/process.rs:602-618 | when it succeeds, the default block holds one rule per network |
| NftForward.AllPortsStep | src/nftables/process.rs:806-968 | one more port extends the output with its rules, or stops the whole rule when it fails or yields none |
| NftForward.AllPortsPrefixStop | src/nftables/process.rs:811-880 | once a prefix of the ports fails or stops, the whole rule gives the same outcome |
| NftForward.AllPortsStopAt | src/nftables/process.rs:811-880 | a port yielding no rules after successful ports drops the rules of the earlier ports too |
| NftForward.AllPortsPrefixOk | src/nftables/process.rs:806-968 | ports that all succeed give a successful prefix |
| NftForward.AllPortsCount | src/nftables/process.rs:806-968 | when every port contributes k commands, the rule holds k per port |
| NftForward.CidrVariants | src/nftables/process.rs:722-728 | one copy of the base rule per source CIDR |
| NftForward.ApplySourceCidrs | src/nftables/process.rs:711-797 | one copy of the builder per CIDR, restricted to that source, every copy built before any is added to the chain |
| NftForward.BuildOpenRules | src/nftables/process.rs:946-965 | the rules open to every source: forward, DNAT and, only when exposed via IPv6, mark |
| NftForward.FillPortRules | src/nftables/process.rs:825-916 | the three builders of a port hold the fields of the forward, DNAT and mark rules for the container's address, the port and the external interface |
| NftForward.FillForward | src/nftables/process.rs:825-916 | the forward builder goes to the container's address and port on its bridge, matches the port's protocol, accepts, and enters on the external interface |
| NftForward.FillDnat | src/nftables/process.rs:847-916 | the DNAT builder matches the host port and protocol on the external interface and DNATs to the container's address and port |
| NftForward.FillMark | src/nftables/process.rs:847-916 | the mark builder matches the host port and protocol on the external interface |
| NftForward.PortCommands | src/nftables/process.rs:922-965 | the source-restricted rules when CIDRs are given, else the open rules |
| NftForward.ProcessWwtcPort | src/nftables/process.rs:806-966 | one exposed port yields its commands, or nothing when the network, the container or the external interface is missing |
| NftForward.ProcessWwtcRule | src/nftables/process.rs:800-970 | a wider-world-to-container rule is its ports' commands in order, or nothing when one port stops |
| NftForward.ProcessWwtcRules | src/process.rs:84-98 | the rules are processed in order through the `Vec` combinator |
| NftForward.ProcessWwtc | src/nftables/process.rs:696-708 | the section yields nothing without rules, else its rules' commands |
| NftForward.ProcessCdnatPort | src/nftables/process.rs:992-1085 | one exposed port's DNAT rule, or nothing when the destination network or container is missing |
| NftForward.ProcessCdnatRule | src/nftables/process.rs:986-1090 | a container DNAT rule is its ports' rules in order, or nothing when one port stops |
| NftForward.ProcessCdnatRules | src/process.rs:84-98 | the rules are processed in order through the `Vec` combinator |
| NftForward.ProcessCdnat | src/nftables/process.rs:972-984 | the section yields nothing without rules, else its rules' commands |
| NftForward.AddRuleAddsTo | src/nftables.rs:226-230 | an added rule names its family, the `dfw` table and its chain |
| NftForward.FanOutAddsTo | src/nftables/process.rs:735-793 | every command of a CIDR fan-out adds to the fan-out's chain |
| NftForward.FanOutCount | src/nftables/process.rs:722-795 | a fan-out adds one rule per CIDR |
| NftForward.WwtcPortTargets | src/nftables/process.rs:922-965 | a port's commands go to the `inet` forward chain, the IPv4 prerouting chain and, only when exposed via IPv6, the IPv6 prerouting chain |
| NftForward.AllPortsEvery | src/nftables/process.rs:806-968 | what holds of every port's commands holds of the whole rule's |
| NftForward.WwtcRuleTargets | src/nftables/process.rs:800-970 | a rule adds only to those three chains; without `expose_via_ipv6` it adds no IPv6 command even with IPv6 source CIDRs |
| NftForward.WwtcV6CidrsOnly | src/nftables/process.rs:924-946 | with IPv6 source CIDRs and no IPv4 ones a port gets no IPv4 rule at all: only IPv6 mark rules, and none without `expose_via_ipv6` |
| NftForward.WwtcPortCount | src/nftables/process.rs:922-965 | a port yields two commands per IPv4 CIDR plus one per IPv6 CIDR when exposed via IPv6; without CIDRs two, or three when exposed via IPv6 |
| NftForward.WwtcDropsWholeRule | src/nftables/process.rs:811-920 | a port whose network, container or external interface is missing drops the whole rule, earlier ports included |
| NftForward.WwtcDnatText | src/nftables/process.rs:847-861 | the DNAT rule matches the host port on the external interface and sends it to the container's address and port, the host port when none is given |
| NftForward.CdnatIgnoresFamily | src/nftables/process.rs:1063-1085 | the container DNAT rule is the same whatever the port's protocol family |
| NftForward.CdnatText | src/nftables/process.rs:1038-1085 | the rule matches `tcp` on the container port, leaves via the destination bridge and ends with the DNAT to the destination container's address and port |
| NftForward.CdnatUnknownDestination | src/nftables/process.rs:1038-1041 | a rule whose destination network is unknown yields no rules once its source side resolves |
| NftProcess.ProcessSections | src/nftables/process.rs:95-114 | the sections are the backend defaults (the empty defaults when absent), the global defaults and the five rule sections, in that order |
| NftProcess.ProcessNftDfw | src/nftables/process.rs:21-126 | the run is the prologue followed by every section's rules, or the first failing section's error |
| NftProcess.NftDfwOutcome | src/nftables/process.rs:25-124 | a successful output starts with the prologue; the run fails iff the global defaults or one of the five rule sections fails, since the backend defaults never fail |
| NftProcess.DeprecatedInitializationFollowsPrologue | src/nftables/process.rs:96-107 | without a backend section the deprecated top-level initialization rules come right after the prologue |
| NftProcess.PrologueBaseChains | src/nftables/process.rs:28-75 | the input base chain hooks in at priority -5, the IPv4 NAT prerouting at -105 and postrouting at 95 |
| NftProcess.PriorityTexts | src/nftables/mod.rs:23-31 | the DFW priorities sit five steps ahead of netfilter's filter, destination-NAT and source-NAT priorities |
| IptRule.Rule.constructor | src/iptables/rule.rs:57-74 | a new rule holds its table and chain, no option and no negation |
| IptRule.Rule.Clone | src/iptables/rule.rs:13-14 | a clone is a fresh rule with the same fields |
| IptRule.Rule.SetSource | src/iptables/rule.rs:76-83 | sets `source` and leaves every other field as it was |
| IptRule.Rule.SetDestination | src/iptables/rule.rs:85-92 | sets `destination` and leaves every other field as it was |
| IptRule.Rule.SetInInterface | src/iptables/rule.rs:94-101 | sets `inInterface` and leaves every other field as it was |
| IptRule.Rule.SetOutInterface | src/iptables/rule.rs:103-110 | sets `outInterface` and leaves every other field as it was |
| IptRule.Rule.SetNotInInterface | src/iptables/rule.rs:112-116 | sets `notInInterface` and leaves every other field as it was |
| IptRule.Rule.SetNotOutInterface | src/iptables/rule.rs:118-122 | sets `notOutInterface` and leaves every other field as it was |
| IptRule.Rule.SetProtocol | src/iptables/rule.rs:124-131 | sets `protocol` and leaves every other field as it was |
| IptRule.Rule.SetSourcePort | src/iptables/rule.rs:133-140 | sets `sourcePort` and leaves every other field as it was |
| IptRule.Rule.SetDestinationPort | src/iptables/rule.rs:142-149 | sets `destinationPort` and leaves every other field as it was |
| IptRule.Rule.SetFilter | src/iptables/rule.rs:151-158 | sets `filter` and leaves every other field as it was |
| IptRule.Rule.SetJump | src/iptables/rule.rs:160-167 | sets `jump` and leaves every other field as it was |
| IptRule.Rule.SetComment | src/iptables/rule.rs:169-176 | sets `comment` and leaves every other field as it was |
| IptRule.Rule.Build | src/iptables/rule.rs:178-256 | the built rule is the rendering of the rule's fields; it succeeds iff some match option and a jump target are set, and keeps the table and chain |
| IptRule.PushMatchOptions | src/iptables/rule.rs:181-226 | the pushed options are the match options in rendering order |
| IptRule.PushOpt | src/iptables/rule.rs:181-188 | appends the key and value only when the value is set |
| IptRule.PushProtocol | src/iptables/rule.rs:204-212 | appends the protocol, or `-p tcp` when a port is set without one |
| IptRule.PushInterface | src/iptables/rule.rs:189-202 | appends an interface option, preceded by `!` when negated |
| IptRule.MatchOptionsEmptyIff | src/iptables/rule.rs:228-235 | the match options are empty iff no match option is set |
| IptRule.RenderOutcome | src/iptables/rule.rs:228-242 | `build` fails with the match error without a match option, else with the jump error without a target, and otherwise succeeds keeping the table and chain |
| IptRule.NegationOnlyWithInterface | src/iptables/rule.rs:189-202 | `!` precedes an interface option iff that interface is set and negated; a negation flag alone renders nothing |
| IptRule.TcpForPorts | src/iptables/rule.rs:207-212 | a port without a protocol gets `-p tcp`, right before the port options |
| IptRule.JumpThenComment | src/iptables/rule.rs:237-255 | the jump target follows all match options, and a comment, quoted, comes last |
| IptRestore.FromDiscriminant | src/iptables/mod.rs:198-206 | the rule carries the given family and the given payload |
| IptRestore.FromDiscriminantOnto | src/iptables/mod.rs:191-206 | every rule is the tagging of its own payload with its own family |
| IptRestore.SortedPairwise | src/iptables/mod.rs:127-128 | the model of a `BTreeMap` lists its keys in strictly increasing byte order |
| IptRestore.GetPut | src/iptables/mod.rs:138-157 | after storing a binding, reading a key sees the new value for that key and the old value for every other |
| IptRestore.PutAbove | src/iptables/mod.rs:138-157 | storing a key above a bound adds no key below it |
| IptRestore.PutSorted | src/iptables/mod.rs:138-157 | storing a binding keeps the keys sorted |
| IptRestore.WriteRules | src/iptables/mod.rs:121-178 | the lines written are the serialization of the rules of the requested family |
| IptRestore.GroupRules | src/iptables/mod.rs:127-160 | the first loop builds the nested table/chain map of the requested family |
| IptRestore.WriteTable | src/iptables/mod.rs:162-175 | one table is written as its header, its chains' policy lines, its chains' rules and `COMMIT` |
| IptRestore.RulesForAppend | src/iptables/mod.rs:145-157 | a chain's rules from two lists given one after the other are the first list's followed by the second's |
| IptRestore.RulesForNone | src/iptables/mod.rs:145-157 | a list without a rule for the chain gives the chain no rules |
| IptRestore.RulesForFirst | src/iptables/mod.rs:145-157 | the first rule given for a chain is the chain's first rule line |
| IptRestore.EntryPutEntry | src/iptables/mod.rs:138-157 | storing a chain's entry changes that chain's entry and no other |
| IptRestore.GroupEntry | src/iptables/mod.rs:129-159 | each chain ends up with the last policy given for it and all its rules in the order given; rules of the other family are skipped |
| IptRestore.GroupIgnoresOtherFamily | src/iptables/mod.rs:130-132 | dropping the rules of the other family beforehand changes nothing |
| IptRestore.GroupWellFormed | src/iptables/mod.rs:127-160 | the grouped map is sorted at both levels, so tables and chains are written in byte order |
| IptRestore.GetSorted | src/iptables/mod.rs:139-141 | a table's chain map read from a well-formed map is sorted |
| IptRestore.PutRowsSorted | src/iptables/mod.rs:139-141 | storing a sorted chain map keeps the nested map well formed |
| IptRestore.PolicyLineIff | src/iptables/mod.rs:164-168 | a `:chain policy [0:0]` line is written iff that chain has a policy |
| IptRestore.OutputJoin | src/iptables/mod.rs:162-175 | the text written is the lines joined by newlines with a final newline |
| IptRestore.RenderTablesEnds | src/iptables/mod.rs:162-175 | a non-empty rendering starts with the first table's header and ends with `COMMIT` |
| IptRestore.GetRulesLines | src/iptables/mod.rs:100-116 | reading the text back gives the written lines when no line contains a newline; an empty rule set reads back as one empty line |
| IptCommands.FlushChainWords | src/iptables/process.rs:981-994 | a flush keeps its family and is filed as a rule of its own table and chain, and its text reads back as exactly the two words `-F` and that chain |
| IptCommands.AppendRuleWords | src/iptables/process.rs:1007-1021 | the appended text reads `-A`, the chain, then the rule's own words |
| IptCommands.AppendRuleInjective | src/iptables/process.rs:1007-1021 | distinct families, tables, chains or rule texts give distinct appended rules |
| IptSections.Jump | src/iptables/process.rs:352 | the jump target of a verdict is a text that parses back to that verdict |
| IptSections.PolicyJump | src/iptables/process.rs:257 | the jump target of a chain policy is a text that parses back to that policy |
| IptSections.JumpNames | src/iptables/process.rs:257 | the targets are `ACCEPT`, `DROP` and `REJECT`, the upper-case names iptables knows |
| IptSections.EmitBuilt | src/iptables/process.rs:1023-1028 | building a rule and appending it gives the rule its fields render to, appended to its own table and chain, or the build error |
| IptSections.AppendBuiltOfText | src/iptables/rule.rs:178-256 | a rule with a match option and a jump builds and is appended as `-A <chain> <options> -j <target>` to the table and chain it was made for |
| IptSections.TableInitRules | src/iptables/process.rs:151-161 | one raw added rule per initialization rule of the table, in order |
| IptSections.PushInitRules | src/iptables/process.rs:147-162 | the nested loop appends every table's initialization rules, table after table |
| IptSections.ProcessDefaults | src/iptables/process.rs:137-189 | the IPv4 initialization rules, then the IPv6 ones |
| IptSections.InitRulesMembers | src/iptables/process.rs:147-162 | a rule is an initialization rule iff it is some table's configured rule added raw to that table in this family |
| IptSections.DefaultsFamilies | src/iptables/process.rs:143-185 | every initialization rule is a raw rule with no chain; the IPv4 ones come first and are exactly those tagged IPv4 |
| IptSections.ProcessBridgeForwardRule | src/iptables/process.rs:215-220 | the default bridge's forward rule towards one external interface |
| IptSections.ProcessBridgeForwardRules | src/iptables/process.rs:213-222 | one forward rule per external interface, in order |
| IptSections.ProcessMasqueradeRule | src/iptables/process.rs:230-234 | the masquerade rule of one external interface |
| IptSections.ProcessMasqueradeRules | src/iptables/process.rs:227-236 | one masquerade rule per external interface, in order |
| IptSections.ProcessBridgeRules | src/iptables/process.rs:198-224 | the default bridge's rules: none without a network named `bridge`, an error when it has no options, none when the options name no interface, else the input rule and the forward rules |
| IptSections.ProcessGlobalDefaults | src/iptables/process.rs:191-240 | the bridge rules, then the masquerade rules |
| IptSections.BridgeInputText | src/iptables/process.rs:206-210 | the bridge input rule reads `-A DFWRS_INPUT -i <bridge> -j ACCEPT` in the IPv4 `filter` table |
| IptSections.BridgeForwardText | src/iptables/process.rs:215-220 | the bridge forward rule reads `-A DFWRS_FORWARD -i <bridge> -o <iface> -j ACCEPT` |
| IptSections.MasqueradeText | src/iptables/process.rs:230-234 | the masquerade rule reads `-A DFWRS_POSTROUTING -o <iface> -j MASQUERADE` in the IPv4 `nat` table |
| IptSections.GlobalDefaultsOutcome | src/iptables/process.rs:191-240 | the global defaults fail iff a network named `bridge` has no options; they end with one masquerade rule per external interface and ignore the bridge-to-host policy |
| IptSections.ProcessCtcRule | src/iptables/process.rs:264-364 | a container-to-container rule is one forward rule, or nothing when its network or a named container is not found |
| IptSections.SetCtcSource | src/iptables/process.rs:288-317 | the source lookup's outcome is returned, and an attached source container restricts the rule to its address and changes nothing else |
| IptSections.SetCtcDestination | src/iptables/process.rs:319-344 | the destination lookup's outcome is returned, and an attached destination container restricts the rule to its address and changes nothing else |
| IptSections.ProcessCtcRules | src/process.rs:84-98 | the explicit rules are processed in order through the `Vec` combinator |
| IptSections.ProcessCtc | src/iptables/process.rs:242-262 | the explicit rules, then the jump to the default policy |
| IptSections.CtcPolicyLast | src/iptables/process.rs:248-258 | the policy jump is the last rule, after every explicit rule |
| IptSections.CtcPolicyRuleWords | src/iptables/process.rs:253-258 | the policy rule reads `-A DFWRS_FORWARD -j ACCEPT` or `-A DFWRS_FORWARD -j DROP` |
| IptSections.CtcRuleSkipsUnknown | src/iptables/process.rs:271-328 | a rule whose network is unknown or whose named source container is not attached contributes nothing |
| IptSections.CtcRuleBridged | src/iptables/process.rs:269-362 | a rule with its network and containers found enters and leaves the network's bridge, jumps to its verdict and is one rule of the forward chain |
| IptSections.SetCtwwSource | src/iptables/process.rs:420-457 | the source side set on a fresh forward rule equals the source-side specification |
| IptSections.ProcessCtwwRule | src/iptables/process.rs:414-496 | a container-to-wider-world rule must build before its output interface is set, and is then one forward rule |
| IptSections.ProcessCtwwRules | src/process.rs:84-98 | the explicit rules are processed in order through the `Vec` combinator |
| IptSections.ProcessWorldDefaultRule | src/iptables/process.rs:388-405 | one default rule from a network's bridge to one external interface |
| IptSections.ProcessWorldDefaultRow | src/iptables/process.rs:387-406 | the default rules towards one interface, one network after the other |
| IptSections.ProcessWorldDefaults | src/iptables/process.rs:377-408 | the default rules for every external interface, in order |
| IptSections.ProcessCtww | src/iptables/process.rs:366-412 | the explicit rules, then the default-policy rules for every interface and network |
| IptSections.CtwwUnattachedSource | src/iptables/process.rs:422-457 | a named source container not attached to the network drops the network match entirely; without free-form matches the rule is refused |
| IptSections.CtwwInterface | src/iptables/process.rs:474-494 | a rule that matches on its own leaves through its own interface, else the primary one, and always builds into one rule |
| IptSections.WorldDefaultsCount | src/iptables/process.rs:382-407 | when it succeeds, the default block holds one rule per external interface and network |
| IptSections.ProcessCthRule | src/iptables/process.rs:531-598 | a container-to-host rule is one input rule, or nothing when its network is unknown |
| IptSections.ProcessCthRules | src/process.rs:84-98 | the explicit rules are processed in order through the `Vec` combinator |
| IptSections.ProcessHostDefaultRule | src/iptables/process.rs:510-524 | one default input rule per network's bridge |
| IptSections.ProcessHostDefaults | src/iptables/process.rs:509-525 | the default input rules, one network after the other |
| IptSections.ProcessCth | src/iptables/process.rs:498-529 | the explicit rules, then one default rule per network |
| IptSections.CthUnattachedSourceWidens | src/iptables/process.rs:553-571 | a source container not attached to the network leaves the rule for the whole network |
| IptSections.CthRuleOutcome | src/iptables/process.rs:538-596 | on a known network the rule fails iff the id is too short or the container inspection fails, and otherwise is one rule of the input chain |
| IptSections.HostDefaultsCount | src/iptables/process.rs:509-525 | when it succeeds, the default block holds one rule per network |
| IptForward.CidrVariants | src/iptables/process.rs:727-733 | one copy of the base rule per source CIDR |
| IptForward.ApplySourceCidrs | src/iptables/process.rs:727-762 | a clone of the rule per source CIDR, restricted to it, every clone built before any is appended, in CIDR order |
| IptForward.EmitVariant | src/iptables/process.rs:727-743 | a clone of the rule restricted to one source CIDR builds and is appended, or yields the build error, leaving the original rule as it was |
| IptForward.EmitV4 | src/iptables/process.rs:723-778 | the IPv4 rules: a forward rule per source CIDR then a DNAT rule per source CIDR, or one of each |
| IptForward.EmitV6 | src/iptables/process.rs:779-809 | the IPv6 rules only when exposed via IPv6: an input rule per source CIDR, or one |
| IptForward.FillPortRules | src/iptables/process.rs:642-690 | the three rules of a port hold the forward, DNAT and input fields for the container's address and the port |
| IptForward.SetPortInterfaces | src/iptables/process.rs:701-719 | sets the input interface of the rules as the source does and reports whether an external interface exists |
| IptForward.ProcessWwtcPort | src/iptables/process.rs:624-810 | one exposed port yields its rules, or is skipped when the network, the container or the external interface is missing |
| IptForward.ProcessWwtcRule | src/iptables/process.rs:616-814 | a wider-world-to-container rule is every port's rules in order, skipped ports contributing nothing |
| IptForward.ProcessWwtcRules | src/process.rs:84-98 | the rules are processed in order through the `Vec` combinator |
| IptForward.ProcessWwtc | src/iptables/process.rs:600-614 | the section yields nothing without rules, else its rules' output |
| IptForward.SetCdnatSource | src/iptables/process.rs:841-880 | the source side set on a fresh prerouting rule equals the source-side specification |
| IptForward.ProcessCdnatPort | src/iptables/process.rs:838-951 | one exposed port's DNAT rule, or nothing when the destination network or container is missing |
| IptForward.ProcessCdnatRule | src/iptables/process.rs:832-955 | a container DNAT rule is every port's rule in order, skipped ports contributing nothing |
| IptForward.ProcessCdnatRules | src/process.rs:84-98 | the rules are processed in order through the `Vec` combinator |
| IptForward.ProcessCdnat | src/iptables/process.rs:816-830 | the section yields nothing without rules, else its rules' output |
| IptForward.FanOutRules | src/iptables/process.rs:727-762 | a fan-out over source CIDRs yields, in CIDR order, the base rule restricted to each CIDR, appended to the base rule's chain |
| IptForward.FanOutTargets | src/iptables/process.rs:740-761 | every rule of a fan-out is in the requested family and on the base rule's table and chain |
| IptForward.WwtcPortShape | src/iptables/process.rs:723-809 | a prepared port always builds: the IPv4 forward rules, then the IPv4 DNAT rules, then the IPv6 input rules, in those counts |
| IptForward.V4RulesShape | src/iptables/process.rs:723-778 | the IPv4 rules always build when both rules match and jump, forward rules before DNAT rules |
| IptForward.V6RulesShape | src/iptables/process.rs:779-809 | the IPv6 rules always build when the input rule matches and jumps, all on the input chain in family IPv6 |
| IptForward.WwtcInterfaces | src/iptables/process.rs:701-719 | the rule's own interface goes on the forward and DNAT rules only, the primary interface on all three; without either the port is skipped |
| IptForward.WwtcPortOutcome | src/iptables/process.rs:629-719 | a port fails iff its bridge or its container inspection fails, and is skipped iff the container is not attached or there is no external interface |
| IptForward.WwtcDnatText | src/iptables/process.rs:662-706 | the DNAT rule matches the interface, the protocol and the host port and jumps to `DNAT --to-destination` the container's address and port |
| IptForward.CdnatPortIgnored | src/iptables/process.rs:906-919 | the DNAT rule does not depend on the port's family, nor on the host port when a container port is given |
| IptForward.CdnatText | src/iptables/process.rs:882-945 | the rule leaves through the destination bridge, matches `tcp` on the container port, DNATs to the container's address and port, and is never negated |
| IptForward.CdnatUnknownDestination | src/iptables/process.rs:882-885 | a port whose destination network is unknown is skipped once the source side resolves |
| IptProcess.ProcessSections | src/iptables/process.rs:116-124 | the sections are the backend defaults, the five rule sections and then the global defaults, in that order |
| IptProcess.ProcessIptDfw | src/iptables/process.rs:17-135 | the run is the prologue followed by every section's rules, or the first failing section's error |
| IptProcess.IptDfwOutcome | src/iptables/process.rs:21-133 | a successful output starts with the prologue; the run fails iff some section fails, with the error of the first failing section |
| IptProcess.GlobalDefaultsLast | src/iptables/process.rs:116-129 | the global defaults are processed last: their rules end the output |
| IptProcess.PrologueSetsUpChains | src/iptables/process.rs:21-37 | the 32-entry prologue opens with the creation and flush of every DFW chain, IPv4 then IPv6 |
| IptProcess.PrologueBlock | src/iptables/process.rs:22-37 | each group of four prologue entries sets up one DFW chain |
| IptProcess.SetupRules | src/iptables/process.rs:973-994 | a chain's set-up gives that chain, in either family, only its flush, and no other chain anything |
| IptProcess.SetupOfOthers | src/iptables/process.rs:22-37 | setting up other chains gives a chain no rules |
| IptProcess.SetupOfRules | src/iptables/process.rs:22-37 | setting up distinct chains gives each, in either family, only its flush |
| IptProcess.PrologueFlushesFirst | src/iptables/process.rs:21-129 | in the restore input each DFW chain's rules start with its flush, ahead of every section's rules, in either family |
| IptExec.DummyReply | src/iptables.rs:220-310 | `execute` reports a failed process with empty output, `get_policy` the empty text, the listings no lines, and every other call `false` |
| IptExec.KilledStatusFails | src/iptables.rs:231-237 | the reported status is a death by signal 9: no exit code and no success |
| IptExec.Logger.constructor | src/iptables.rs:320-323 | a new logger has an empty log |
| IptExec.Logger.Log | src/iptables.rs:325-330 | appends the function name and the parameters joined by single spaces |
| IptExec.Logger.Logs | src/iptables.rs:332-335 | returns the entries in call order |
| IptExec.Logger.Call | src/iptables.rs:337-449 | each call appends one log entry and answers as the dummy does |
| IptExec.PositionLogged | src/iptables.rs:364-380 | `insert`, `insert_unique` and `replace` log the position after the table, chain and rule as its signed decimal text, and two calls that differ only in the position, negative ones included, leave different log entries |
| Changelog.RStrip | hack/extract-current-changelog.py:18 | the stripped line is a prefix of the line that does not end in whitespace, and everything cut off is whitespace |
| Changelog.Stripped | hack/extract-current-changelog.py:17-18 | every line right-stripped, one for one |
| Changelog.GetCurrentChangelog | hack/extract-current-changelog.py:14-32 | the loop yields exactly what the line machine yields from its initial state over the file's lines |
| Changelog.RunAppend | hack/extract-current-changelog.py:16-32 | running over two pieces of a file runs over the first, then over the second from the state the first left |
| Changelog.NoHeadingYieldsNothing | hack/extract-current-changelog.py:21-23 | before the first `## ` heading nothing is yielded and the machine stays initial |
| Changelog.BlanksSkipped | hack/extract-current-changelog.py:24-27 | blank lines after the heading are skipped |
| Changelog.BodyYielded | hack/extract-current-changelog.py:28-32 | while yielding, every line up to the next heading is yielded right-stripped, blank or not |
| Changelog.NoHeadingNoChangelog | hack/extract-current-changelog.py:21-23 | a changelog without a `## ` line yields nothing |
| Changelog.CurrentSection | hack/extract-current-changelog.py:14-32 | the output is the current section: from the first line with content after the first heading up to the next heading, right-stripped |
| Changelog.LastSection | hack/extract-current-changelog.py:14-32 | a section with no heading after it is yielded to the end of the file |
| Changelog.SectionYielded | hack/extract-current-changelog.py:24-32 | from the first line with content to the next heading, every line is yielded right-stripped |
| Changelog.ClosingHeading | hack/extract-current-changelog.py:19-20 | the closing heading and everything after it yield nothing |
| Changelog.EmptySection | hack/extract-current-changelog.py:21-27 | a heading followed only by blank lines yields nothing |
| Changelog.OpenedSection | hack/extract-current-changelog.py:21-27 | up to the first line with content nothing is yielded and the machine waits for content |
| Changelog.YieldedStripped | hack/extract-current-changelog.py:18-32 | every yielded line is already right-stripped |
| Changelog.RStripIdempotent | hack/extract-current-changelog.py:18 | right-stripping twice is right-stripping once |

## Left out

- Docker access is an input. The container list, the network list, the endpoints `docker inspect` reports (`get_network_for_container`, `src/process.rs:1225-1245`) and the order in which `network_map.values()` iterates the networks are all carried by `Process.Context`.
- Subprocesses are an input or left out. `nft list ruleset` enters as an optional text, and a failed read is `None`. `Nftables::apply` and `Iptables::restore` (the temporary file and the `nft`/`iptables-restore` calls) are not modelled, nor is `ProcessContext::process`.
- `IPTablesProxy` is not modelled: it is a thin wrapper over the `iptables` crate, i.e. I/O.
- The command-line entry points, threads, signals, configuration file loading and the serde plumbing are not modelled: `src/main.rs`, `src/bin`, `src/util.rs` and `src/de.rs`.
- All `slog` logging and the time stamps of the "Starting/Finished processing" messages are left out.
- The `expect` panics on a missing network id or container IPv4 address cannot happen in the model. The corresponding fields are not optional.
- The error "IPv4 address is empty" is not modelled. `split('/').next()` always yields a piece, so the error cannot fire; `Process.Ipv4Of` is the text before the first `/`.
- The configuration types are reconstructed from how the processors use them. The `src/types.rs` available here predates the two backends.
- `get_bridge_name` is modelled on the network id (`src/process.rs:1218-1223`), which is the variant the iptables processors call (`get_bridge_name(&network.id)`). The nftables processors call a variant that takes the whole network (`src/nftables/process.rs:335`, 372, 396 and on), and that variant is not part of this model: the nftables model calls `GetBridgeName(network.id)` in its place. Anything that variant derives from the network other than its id is not captured.
- Builds whose success is already settled are not repeated. Examples are the check build before the output interface is set, and the three builds of a prepared port. The model performs each build once, at the point where it can fail, and the result is the same.
- Builder clones are modelled as snapshots of the builder's fields. A builder that is moved into a helper is modelled by its snapshot too.
- The nftables `Process for DFW` builds all seven section results before appending any of them. The model appends them in order and stops at the first error; the result is the same.
- IptExec.DummyReply: every trait method of `IPTablesDummy` is modelled, but the model does not distinguish `Ok` results from errors, because no dummy or logger method can fail.
- IptExec.Logger.Call: the `RefCell` of `IPTablesLogger` is modelled as an ordinary field that the methods reassign. Interior mutability behind a shared reference is not modelled.
- Integer widths are bounded where the source's type is: ports are `u16` and positions `i32`. The priorities are proved to lie within `i16`.
- `Default` for `ChainPolicy` and `RuleVerdict` (`src/nftables.rs:123-127`, `166-170`) is not modelled. It only fills in configuration values, and the model takes the configuration whole.
- Character case conversion (`to_uppercase`) is modelled on ASCII letters only. Every text it is applied to (policy and verdict names) is ASCII.
- The changelog's file reading and printing are not modelled. The model takes the lines `readlines` returns, and `str.isspace` is modelled by its list of Unicode whitespace characters.

Behaviours of the code that the model reproduces, and that a reader might not expect:

- nftables wider-world-to-container: with IPv6 source CIDRs but no IPv4 ones, a port gets no IPv4 forward or DNAT rule at all (`NftForward.WwtcV6CidrsOnly`). The iptables backend does emit them.
- nftables: a port whose network, container or external interface is missing drops the whole rule (`return Ok(None)`, `NftForward.WwtcDropsWholeRule`). The iptables backend skips only that port (`continue`, `IptForward.WwtcPortOutcome`).
- iptables wider-world-to-container: the rule's own external interface is set on the forward and DNAT rules but not on the IPv6 input rule, whereas the primary interface is set on all three (`IptForward.WwtcInterfaces`).
- Both container-DNAT processors ignore the port's protocol family: the rule always matches `tcp`. The iptables one also ignores the host port when a container port is given (`IptForward.CdnatPortIgnored`, `NftForward.CdnatIgnoresFamily`).
- In the iptables container DNAT the output interface is always set before the `out_interface.is_none()` test. So the branch that adds `! -i <primary>` never runs, and the model leaves it out (`IptForward.CdnatText`).
- The iptables global defaults accept default-bridge traffic whatever `default_docker_bridge_to_host_policy` says (`IptSections.GlobalDefaultsOutcome`).
- iptables container-to-wider-world: a named source container that is not attached to the network drops the network match as well (`IptSections.CtwwUnattachedSource`).
- The changelog extractor: when the first section holds only blank lines, the next `## ` heading is the first line with content and is yielded, together with the section after it (`Changelog.CurrentSection`, whose `first` line may be a heading).
