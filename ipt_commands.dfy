/** The iptables command helpers of the processors: each makes one
    policy or rule of a given IP family for a table and chain, in the
    form the restore serialisation groups. */
module IptCommands {
  import opened IptRestore
  import IptRule
  import Text

  /** The chains DFW owns in the `filter` and `nat` tables. */
  const DfwForwardChain: string := "DFWRS_FORWARD"
  const DfwInputChain: string := "DFWRS_INPUT"
  const DfwPostroutingChain: string := "DFWRS_POSTROUTING"
  const DfwPreroutingChain: string := "DFWRS_PREROUTING"

  /** `set_policy`. */
  function SetPolicy(d: Discriminant, table: string, chain: string, policy: string): IptablesRule {
    FromDiscriminant(d, Policy(table, chain, policy))
  }

  /** `new_chain`: a chain is created by giving it the empty policy `-`. */
  function NewChain(d: Discriminant, table: string, chain: string): IptablesRule {
    SetPolicy(d, table, chain, "-")
  }

  /** `flush_chain`. */
  function FlushChain(d: Discriminant, table: string, chain: string): IptablesRule {
    FromDiscriminant(d, Rule(table, chain, "-F " + chain))
  }

  /** `add_rule`: a raw rule of a table, under the empty chain name. */
  function AddRule(d: Discriminant, table: string, rule: string): IptablesRule {
    FromDiscriminant(d, Rule(table, "", rule))
  }

  /** `append_rule`. */
  function AppendRule(d: Discriminant, table: string, chain: string, rule: string): IptablesRule {
    FromDiscriminant(d, Rule(table, chain, "-A " + chain + " " + rule))
  }

  /** `append_built_rule`: a built rule appended to its own chain. */
  function AppendBuiltRule(d: Discriminant, b: IptRule.BuiltRule): IptablesRule {
    AppendRule(d, b.table, b.chain, b.rule)
  }

  /** A space-free token of a command. */
  predicate IsWord(s: string) {
    |s| > 0 && ' ' !in s
  }

  /** A flush is filed as a rule of its own table and chain, and its text
      reads back as exactly two words: `-F` and that chain. */
  lemma FlushChainWords(d: Discriminant, table: string, chain: string)
    requires IsWord(chain)
    ensures var e := PolicyOrRuleOf(FlushChain(d, table, chain));
      DiscriminantOf(FlushChain(d, table, chain)) == d && e.Rule? && e.table == table && e.chain == chain
      && Text.Split(e.value, ' ') == ["-F", e.chain]
  {
    assert "-F " + chain == Text.Join(["-F", chain], [' ']);
    Text.SplitJoin(["-F", chain], ' ');
  }

  /** The appended rule text reads as `-A`, the chain, then the rule's own
      words, and the rule is what follows the chain. */
  lemma AppendRuleWords(d: Discriminant, table: string, chain: string, rule: string)
    requires IsWord(chain)
    ensures var v := PolicyOrRuleOf(AppendRule(d, table, chain, rule)).value;
      Text.Split(v, ' ') == ["-A", chain] + Text.Split(rule, ' ')
      && v[|chain| + 4..] == rule
  {
    var v := "-A " + chain + " " + rule;
    assert v == Text.Join(["-A", chain], [' ']) + [' '] + rule;
    Text.SplitJoinThen(["-A", chain], rule, ' ');
  }

  /** Distinct families, tables, chains or rule texts give distinct
      appended rules: appending loses nothing. */
  lemma AppendRuleInjective(d1: Discriminant, t1: string, c1: string, r1: string,
                            d2: Discriminant, t2: string, c2: string, r2: string)
    requires AppendRule(d1, t1, c1, r1) == AppendRule(d2, t2, c2, r2)
    ensures d1 == d2 && t1 == t2 && c1 == c2 && r1 == r2
  {
    var v := "-A " + c1 + " " + r1;
    assert v[|c1| + 4..] == r1;
    assert ("-A " + c2 + " " + r2)[|c2| + 4..] == r2;
  }
}
