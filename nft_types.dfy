/** The nftables vocabulary of the engine: table families, chain types,
    hooks, chain policies and rule verdicts with their textual forms, the
    netfilter hook priorities and the packet mark DFW sets. */
module NftTypes {
  import opened Wrappers
  import Text

  /** Table families, printed in snake case. */
  datatype Family = Ip | Ip6 | Inet | Arp | Bridge | Netdev

  function FamilyName(f: Family): (s: string)
    ensures |s| > 0 && ' ' !in s
  {
    match f
    case Ip => "ip"
    case Ip6 => "ip6"
    case Inet => "inet"
    case Arp => "arp"
    case Bridge => "bridge"
    case Netdev => "netdev"
  }

  /** Chain types, printed in snake case. */
  datatype ChainType = Filter | Route | Nat

  function ChainTypeName(t: ChainType): (s: string)
    ensures |s| > 0 && ' ' !in s
  {
    match t
    case Filter => "filter"
    case Route => "route"
    case Nat => "nat"
  }

  /** Chain hooks, printed in snake case. */
  datatype Hook = Ingress | Prerouting | Input | Forward | Output | Postrouting

  function HookName(h: Hook): (s: string)
    ensures |s| > 0 && ' ' !in s
  {
    match h
    case Ingress => "ingress"
    case Prerouting => "prerouting"
    case Input => "input"
    case Forward => "forward"
    case Output => "output"
    case Postrouting => "postrouting"
  }

  /** Distinct families, types and hooks print differently, so each printed
      command names exactly one of them. */
  lemma NamesInjective(f1: Family, f2: Family, t1: ChainType, t2: ChainType, h1: Hook, h2: Hook)
    ensures FamilyName(f1) == FamilyName(f2) ==> f1 == f2
    ensures ChainTypeName(t1) == ChainTypeName(t2) ==> t1 == t2
    ensures HookName(h1) == HookName(h2) ==> h1 == h2
  {
  }

  // ---------------------------------------------------------------------
  // Chain policies and rule verdicts

  datatype ChainPolicy = Accept | Drop

  /** Display of a chain policy: always lower case. */
  function ChainPolicyName(p: ChainPolicy): (s: string)
    ensures ParseChainPolicy(s) == Some(p)
    ensures ParseChainPolicy(Text.ToUpper(s)) == Some(p)
  {
    match p
    case Accept => "accept"
    case Drop => "drop"
  }

  /** `FromStr` for chain policies: the lower- and the upper-case spelling
      of each policy, nothing else. */
  function ParseChainPolicy(s: string): (r: Option<ChainPolicy>)
    ensures r.Some? <==> s in {"accept", "ACCEPT", "drop", "DROP"}
  {
    if s == "accept" || s == "ACCEPT" then Some(ChainPolicy.Accept)
    else if s == "drop" || s == "DROP" then Some(ChainPolicy.Drop)
    else None
  }

  /** Parsing a chain policy inverts its display. */
  lemma ChainPolicyParsePrint(s: string)
    requires ParseChainPolicy(s).Some?
    ensures ChainPolicyName(ParseChainPolicy(s).value) == s || Text.ToUpper(ChainPolicyName(ParseChainPolicy(s).value)) == s
  {
  }

  datatype RuleVerdict = Accept | Drop | Reject

  /** Display of a verdict: always lower case, one word. */
  function RuleVerdictName(v: RuleVerdict): (s: string)
    ensures ParseRuleVerdict(s) == Some(v)
    ensures |s| > 0 && ' ' !in s
  {
    match v
    case Accept => "accept"
    case Drop => "drop"
    case Reject => "reject"
  }

  /** The upper-case spelling of a verdict's display parses back to it. */
  lemma RuleVerdictUpperCase(v: RuleVerdict)
    ensures ParseRuleVerdict(Text.ToUpper(RuleVerdictName(v))) == Some(v)
  {
    match v
    case Accept => UpperAccept();
    case Drop => UpperDrop();
    case Reject => UpperReject();
  }

  lemma UpperAccept()
    ensures Text.ToUpper("accept") == "ACCEPT"
  {
    assert Text.ToUpper("t") == "T";
    assert Text.ToUpper("pt") == "PT";
    assert Text.ToUpper("ept") == "EPT";
    assert Text.ToUpper("cept") == "CEPT";
    assert Text.ToUpper("ccept") == "CCEPT";
  }

  lemma UpperDrop()
    ensures Text.ToUpper("drop") == "DROP"
  {
    assert Text.ToUpper("p") == "P";
    assert Text.ToUpper("op") == "OP";
    assert Text.ToUpper("rop") == "ROP";
  }

  lemma UpperReject()
    ensures Text.ToUpper("reject") == "REJECT"
  {
    assert Text.ToUpper("t") == "T";
    assert Text.ToUpper("ct") == "CT";
    assert Text.ToUpper("ect") == "ECT";
    assert Text.ToUpper("ject") == "JECT";
    assert Text.ToUpper("eject") == "EJECT";
  }

  /** `FromStr` for rule verdicts: the lower- and the upper-case spelling
      of each verdict, nothing else. */
  function ParseRuleVerdict(s: string): (r: Option<RuleVerdict>)
    ensures r.Some? <==> s in {"accept", "ACCEPT", "drop", "DROP", "reject", "REJECT"}
  {
    if s == "accept" || s == "ACCEPT" then Some(RuleVerdict.Accept)
    else if s == "drop" || s == "DROP" then Some(RuleVerdict.Drop)
    else if s == "reject" || s == "REJECT" then Some(RuleVerdict.Reject)
    else None
  }

  // ---------------------------------------------------------------------
  // Netfilter hook priorities

  const NfIpPriNatDst: int := -100
  const NfIpPriFilter: int := 0
  const NfIpPriNatSrc: int := 100

  const PriorityIpNatPreroutingDfw: int := NfIpPriNatDst - 5
  const PriorityIp6NatPreroutingDfw: int := NfIpPriNatDst - 5
  const PriorityInetFilterAnyDfw: int := NfIpPriFilter - 5
  const PriorityIpNatPostroutingDfw: int := NfIpPriNatSrc - 5
  const PriorityIp6NatPostroutingDfw: int := NfIpPriNatSrc - 5

  /** The packet mark every DFW rule sets. */
  const DfwMark: string := "0xdf"

  /** Each DFW chain runs five priority steps before the netfilter chain of
      the same hook, and all of them fit the `i16` the commands print. */
  lemma DfwPriorities()
    ensures PriorityIpNatPreroutingDfw == PriorityIp6NatPreroutingDfw == -105
    ensures PriorityInetFilterAnyDfw == -5
    ensures PriorityIpNatPostroutingDfw == PriorityIp6NatPostroutingDfw == 95
    ensures PriorityInetFilterAnyDfw < NfIpPriFilter && PriorityIpNatPreroutingDfw < NfIpPriNatDst
    ensures PriorityIpNatPostroutingDfw < NfIpPriNatSrc
    ensures -32768 <= PriorityIpNatPreroutingDfw && PriorityIpNatPostroutingDfw < 32768
  {
  }
}
