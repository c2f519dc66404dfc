/** The iptables backend's rule representation and its serialisation into
    the text `iptables-restore` reads: rules of one IP family, grouped by
    table and chain in byte order, one policy per chain, rules in the
    order given. */
module IptRestore {
  import opened Wrappers
  import Text

  /** The IP family a rule belongs to (the enum's discriminant). */
  datatype Discriminant = V4 | V6

  /** A chain policy or a rule for one table and chain. */
  datatype PolicyOrRule =
    | Policy(table: string, chain: string, policy: string)
    | Rule(table: string, chain: string, value: string)

  /** A rule of the iptables backend, tagged with its IP family. */
  datatype IptablesRule = V4(por: PolicyOrRule) | V6(por: PolicyOrRule)

  /** `policy_or_rule`: the payload, whatever the family. */
  function PolicyOrRuleOf(r: IptablesRule): PolicyOrRule {
    match r
    case V4(p) => p
    case V6(p) => p
  }

  function DiscriminantOf(r: IptablesRule): Discriminant {
    if r.V4? then Discriminant.V4 else Discriminant.V6
  }

  /** `from_discriminant`: tags a payload with a family. */
  function FromDiscriminant(d: Discriminant, p: PolicyOrRule): (r: IptablesRule)
    ensures DiscriminantOf(r) == d && PolicyOrRuleOf(r) == p
  {
    match d
    case V4 => IptablesRule.V4(p)
    case V6 => IptablesRule.V6(p)
  }

  /** Every rule is the tagging of its own payload with its own family. */
  lemma FromDiscriminantOnto(r: IptablesRule)
    ensures FromDiscriminant(DiscriminantOf(r), PolicyOrRuleOf(r)) == r
  {
  }

  // ---------------------------------------------------------------------
  // Ordered maps as sorted association lists (the `BTreeMap`s)

  /** Every key of `m` comes after `b` in byte order. */
  predicate Above<V>(b: string, m: seq<(string, V)>) {
    forall i :: 0 <= i < |m| ==> Text.LexLess(b, m[i].0)
  }

  /** Keys strictly increasing in byte order, hence also distinct. */
  predicate Sorted<V>(m: seq<(string, V)>) {
    |m| == 0 || (Above(m[0].0, m[1..]) && Sorted(m[1..]))
  }

  /** A sorted map lists its keys in strictly increasing order. */
  lemma {:induction false} SortedPairwise<V>(m: seq<(string, V)>)
    requires Sorted(m)
    ensures forall i, j :: 0 <= i < j < |m| ==> Text.LexLess(m[i].0, m[j].0)
  {
    if |m| > 0 {
      SortedPairwise(m[1..]);
      forall i, j | 0 <= i < j < |m| ensures Text.LexLess(m[i].0, m[j].0) {
        if i > 0 {
          assert m[i] == m[1..][i - 1] && m[j] == m[1..][j - 1];
        } else {
          assert m[j] == m[1..][j - 1];
        }
      }
    }
  }

  /** The value under `k`, or `dflt` when absent (`entry().or_insert_with`). */
  function Get<V>(m: seq<(string, V)>, k: string, dflt: V): V {
    if |m| == 0 then dflt
    else if m[0].0 == k then m[0].1
    else Get(m[1..], k, dflt)
  }

  /** The map with `k` bound to `v`, placed by byte order. */
  function Put<V>(m: seq<(string, V)>, k: string, v: V): seq<(string, V)> {
    if |m| == 0 then [(k, v)]
    else if m[0].0 == k then [(k, v)] + m[1..]
    else if Text.LexLess(k, m[0].0) then [(k, v)] + m
    else [m[0]] + Put(m[1..], k, v)
  }

  /** Reading back after `Put` sees the new binding and nothing else changes. */
  lemma {:induction false} GetPut<V>(m: seq<(string, V)>, k: string, v: V, k': string, dflt: V)
    ensures Get(Put(m, k, v), k', dflt) == if k' == k then v else Get(m, k', dflt)
  {
    if |m| > 0 && m[0].0 != k && !Text.LexLess(k, m[0].0) {
      GetPut(m[1..], k, v, k', dflt);
    }
  }

  /** `Put` adds no key below a bound the map and the new key respect. */
  lemma {:induction false} PutAbove<V>(m: seq<(string, V)>, k: string, v: V, b: string)
    requires Above(b, m) && Text.LexLess(b, k)
    ensures Above(b, Put(m, k, v))
  {
    if |m| > 0 && m[0].0 != k && !Text.LexLess(k, m[0].0) {
      PutAbove(m[1..], k, v, b);
      var r := Put(m, k, v);
      forall i | 0 <= i < |r| ensures Text.LexLess(b, r[i].0) {
        if i > 0 { assert r[i] == Put(m[1..], k, v)[i - 1]; }
      }
    }
  }

  /** `Put` keeps the keys sorted. */
  lemma {:induction false} PutSorted<V>(m: seq<(string, V)>, k: string, v: V)
    requires Sorted(m)
    ensures Sorted(Put(m, k, v))
  {
    if |m| == 0 {
    } else if m[0].0 == k {
      assert Put(m, k, v)[1..] == m[1..];
    } else if Text.LexLess(k, m[0].0) {
      var r := Put(m, k, v);
      assert r[1..] == m;
      forall i | 0 <= i < |m| ensures Text.LexLess(k, m[i].0) {
        if i > 0 {
          assert m[i] == m[1..][i - 1];
          Text.LexLessTransitive(k, m[0].0, m[i].0);
        }
      }
    } else {
      Text.LexLessTotal(k, m[0].0);
      PutSorted(m[1..], k, v);
      PutAbove(m[1..], k, v, m[0].0);
      assert Put(m, k, v)[1..] == Put(m[1..], k, v);
    }
  }

  // ---------------------------------------------------------------------
  // Grouping rules by table and chain

  /** A chain's policy (if any was given) and its rules. */
  datatype ChainEntry = ChainEntry(policy: Option<string>, rules: seq<string>)

  const NoEntry: ChainEntry := ChainEntry(None, [])

  type ChainMap = seq<(string, ChainEntry)>
  type TableMap = seq<(string, ChainMap)>

  /** The entry of one chain in the grouped rules. */
  function Entry(g: TableMap, table: string, chain: string): ChainEntry {
    Get(Get(g, table, []), chain, NoEntry)
  }

  /** The grouped rules with `e` stored as the entry of one chain. */
  function PutEntry(g: TableMap, table: string, chain: string, e: ChainEntry): TableMap {
    Put(g, table, Put(Get(g, table, []), chain, e))
  }

  /** One step of the grouping loop: rules of the other family are skipped,
      a policy overwrites the chain's policy, a rule is appended. */
  function Step(g: TableMap, r: IptablesRule, d: Discriminant): TableMap {
    if DiscriminantOf(r) != d then g
    else
      match PolicyOrRuleOf(r)
      case Policy(t, c, p) => PutEntry(g, t, c, Entry(g, t, c).(policy := Some(p)))
      case Rule(t, c, v) => PutEntry(g, t, c, Entry(g, t, c).(rules := Entry(g, t, c).rules + [v]))
  }

  /** The nested map `write_rules` fills before it writes anything. */
  function Group(rules: seq<IptablesRule>, d: Discriminant): TableMap {
    if |rules| == 0 then [] else Step(Group(rules[..|rules| - 1], d), rules[|rules| - 1], d)
  }

  /** Rows of the grouped map are themselves sorted maps. */
  predicate WellFormed(g: TableMap) {
    Sorted(g) && forall i :: 0 <= i < |g| ==> Sorted(g[i].1)
  }

  // ---------------------------------------------------------------------
  // Writing the grouped map

  function PolicyLine(chain: string, policy: string): string {
    ":" + chain + " " + policy + " [0:0]"
  }

  /** The `:chain policy [0:0]` lines of a table, chains in order. */
  function PolicyLines(chains: ChainMap): seq<string> {
    if |chains| == 0 then []
    else
      var last := chains[|chains| - 1];
      PolicyLines(chains[..|chains| - 1])
        + (if last.1.policy.Some? then [PolicyLine(last.0, last.1.policy.value)] else [])
  }

  /** The rules of a table, chain after chain. */
  function RuleLines(chains: ChainMap): seq<string> {
    if |chains| == 0 then [] else RuleLines(chains[..|chains| - 1]) + chains[|chains| - 1].1.rules
  }

  /** One table: its header, its policies, its rules, `COMMIT`. */
  function TableBlock(table: string, chains: ChainMap): seq<string> {
    ["*" + table] + PolicyLines(chains) + RuleLines(chains) + ["COMMIT"]
  }

  function RenderTables(g: TableMap): seq<string> {
    if |g| == 0 then [] else RenderTables(g[..|g| - 1]) + TableBlock(g[|g| - 1].0, g[|g| - 1].1)
  }

  /** The lines `write_rules` writes for one family. */
  function Serialize(rules: seq<IptablesRule>, d: Discriminant): seq<string> {
    RenderTables(Group(rules, d))
  }

  /** `write_rules`: a loop filling the nested map, then loops writing it,
      one element of `lines` per `writeln!`. */
  method WriteRules(rules: seq<IptablesRule>, d: Discriminant) returns (lines: seq<string>)
    ensures lines == Serialize(rules, d)
  {
    var ruleMap := GroupRules(rules, d);
    lines := [];
    for t := 0 to |ruleMap|
      invariant lines == RenderTables(ruleMap[..t])
    {
      assert ruleMap[..t + 1][..t] == ruleMap[..t];
      var block := WriteTable(ruleMap[t].0, ruleMap[t].1);
      lines := lines + block;
    }
    assert ruleMap[..|ruleMap|] == ruleMap;
  }

  /** The first loop of `write_rules`: the rules of family `d` entered into
      the nested map one by one. */
  method GroupRules(rules: seq<IptablesRule>, d: Discriminant) returns (ruleMap: TableMap)
    ensures ruleMap == Group(rules, d)
  {
    ruleMap := [];
    for i := 0 to |rules|
      invariant ruleMap == Group(rules[..i], d)
    {
      assert rules[..i + 1][..i] == rules[..i];
      var rule := rules[i];
      if DiscriminantOf(rule) != d {
        continue;
      }
      match PolicyOrRuleOf(rule)
      case Policy(table, chain, policy) =>
        var chains := Get(ruleMap, table, []);
        var entry := Get(chains, chain, NoEntry);
        ruleMap := Put(ruleMap, table, Put(chains, chain, entry.(policy := Some(policy))));
      case Rule(table, chain, value) =>
        var chains := Get(ruleMap, table, []);
        var entry := Get(chains, chain, NoEntry);
        ruleMap := Put(ruleMap, table, Put(chains, chain, entry.(rules := entry.rules + [value])));
    }
    assert rules[..|rules|] == rules;
  }

  /** The lines written for one table. */
  method WriteTable(table: string, chains: ChainMap) returns (lines: seq<string>)
    ensures lines == TableBlock(table, chains)
  {
    lines := ["*" + table];
    for c := 0 to |chains|
      invariant lines == ["*" + table] + PolicyLines(chains[..c])
    {
      assert chains[..c + 1][..c] == chains[..c];
      var (chain, entry) := chains[c];
      if entry.policy.Some? {
        lines := lines + [PolicyLine(chain, entry.policy.value)];
      }
    }
    assert chains[..|chains|] == chains;
    ghost var withPolicies := lines;
    for c := 0 to |chains|
      invariant lines == withPolicies + RuleLines(chains[..c])
    {
      assert chains[..c + 1][..c] == chains[..c];
      var chainRules := chains[c].1.rules;
      ghost var before := lines;
      for k := 0 to |chainRules|
        invariant lines == before + chainRules[..k]
      {
        assert chainRules[..k + 1] == chainRules[..k] + [chainRules[k]];
        lines := lines + [chainRules[k]];
      }
      assert chainRules[..|chainRules|] == chainRules;
    }
    lines := lines + ["COMMIT"];
  }

  // ---------------------------------------------------------------------
  // What the grouping computes

  /** The policy of a chain: the last one given for it in this family. */
  function LastPolicy(rules: seq<IptablesRule>, d: Discriminant, table: string, chain: string): Option<string> {
    if |rules| == 0 then None
    else
      var r := rules[|rules| - 1];
      if DiscriminantOf(r) == d && PolicyOrRuleOf(r).Policy?
         && PolicyOrRuleOf(r).table == table && PolicyOrRuleOf(r).chain == chain
      then Some(PolicyOrRuleOf(r).policy)
      else LastPolicy(rules[..|rules| - 1], d, table, chain)
  }

  /** The rules of a chain in this family, in the order given. */
  function RulesFor(rules: seq<IptablesRule>, d: Discriminant, table: string, chain: string): seq<string> {
    if |rules| == 0 then []
    else
      var r := rules[|rules| - 1];
      RulesFor(rules[..|rules| - 1], d, table, chain)
        + (if IsRuleFor(r, d, table, chain) then [PolicyOrRuleOf(r).value] else [])
  }

  /** A rule (not a policy) of this family, table and chain. */
  predicate IsRuleFor(r: IptablesRule, d: Discriminant, table: string, chain: string) {
    DiscriminantOf(r) == d && PolicyOrRuleOf(r).Rule?
    && PolicyOrRuleOf(r).table == table && PolicyOrRuleOf(r).chain == chain
  }

  /** A chain's rules from two lists given one after the other are those
      of the first list followed by those of the second. */
  lemma {:induction false} RulesForAppend(a: seq<IptablesRule>, b: seq<IptablesRule>, d: Discriminant, table: string, chain: string)
    ensures RulesFor(a + b, d, table, chain) == RulesFor(a, d, table, chain) + RulesFor(b, d, table, chain)
  {
    if |b| == 0 {
      assert a + b == a;
    } else {
      var n := |b| - 1;
      assert (a + b)[..|a + b| - 1] == a + b[..n];
      assert (a + b)[|a + b| - 1] == b[n];
      RulesForAppend(a, b[..n], d, table, chain);
    }
  }

  /** A single entry gives its chain its own text when it is a rule. */
  lemma RulesForSingle(x: IptablesRule, d: Discriminant, table: string, chain: string)
    ensures RulesFor([x], d, table, chain) == if IsRuleFor(x, d, table, chain) then [PolicyOrRuleOf(x).value] else []
  {
    assert [x][..0] == [];
  }

  /** A list with no rule of the chain gives the chain no rules. */
  lemma {:induction false} RulesForNone(rules: seq<IptablesRule>, d: Discriminant, table: string, chain: string)
    requires forall i :: 0 <= i < |rules| ==> !IsRuleFor(rules[i], d, table, chain)
    ensures RulesFor(rules, d, table, chain) == []
  {
    if |rules| > 0 {
      var n := |rules| - 1;
      assert forall i :: 0 <= i < n ==> rules[..n][i] == rules[i];
      RulesForNone(rules[..n], d, table, chain);
    }
  }

  /** The first rule given for a chain is the chain's first rule line. */
  lemma RulesForFirst(rules: seq<IptablesRule>, j: nat, d: Discriminant, table: string, chain: string)
    requires j < |rules| && IsRuleFor(rules[j], d, table, chain)
    requires forall i :: 0 <= i < j ==> !IsRuleFor(rules[i], d, table, chain)
    ensures |RulesFor(rules, d, table, chain)| > 0
    ensures RulesFor(rules, d, table, chain)[0] == PolicyOrRuleOf(rules[j]).value
  {
    var x := rules[j];
    assert rules == rules[..j] + ([x] + rules[j + 1..]);
    assert forall i :: 0 <= i < j ==> rules[..j][i] == rules[i];
    RulesForNone(rules[..j], d, table, chain);
    RulesForAppend(rules[..j], [x] + rules[j + 1..], d, table, chain);
    RulesForAppend([x], rules[j + 1..], d, table, chain);
    assert [x][..0] == [];
    assert RulesFor([x], d, table, chain) == [PolicyOrRuleOf(x).value];
  }

  /** Storing an entry changes that chain's entry and no other. */
  lemma EntryPutEntry(g: TableMap, t: string, c: string, e: ChainEntry, table: string, chain: string)
    ensures Entry(PutEntry(g, t, c, e), table, chain)
      == if table == t && chain == c then e else Entry(g, table, chain)
  {
    GetPut(g, t, Put(Get(g, t, []), c, e), table, []);
    GetPut(Get(g, t, []), c, e, chain, NoEntry);
  }

  /** Each chain ends up with the last policy given for it and all of its
      rules in order; everything of the other family is ignored. */
  lemma {:induction false} GroupEntry(rules: seq<IptablesRule>, d: Discriminant, table: string, chain: string)
    ensures Entry(Group(rules, d), table, chain)
      == ChainEntry(LastPolicy(rules, d, table, chain), RulesFor(rules, d, table, chain))
  {
    if |rules| > 0 {
      var prefix := rules[..|rules| - 1];
      var r := rules[|rules| - 1];
      var g := Group(prefix, d);
      GroupEntry(prefix, d, table, chain);
      if DiscriminantOf(r) == d {
        var t, c := PolicyOrRuleOf(r).table, PolicyOrRuleOf(r).chain;
        var e := Entry(g, t, c);
        var e' := if PolicyOrRuleOf(r).Policy? then e.(policy := Some(PolicyOrRuleOf(r).policy))
                  else e.(rules := e.rules + [PolicyOrRuleOf(r).value]);
        assert Group(rules, d) == PutEntry(g, t, c, e');
        EntryPutEntry(g, t, c, e', table, chain);
      }
    }
  }

  /** Only rules of the requested family matter. */
  function OfFamily(rules: seq<IptablesRule>, d: Discriminant): seq<IptablesRule> {
    if |rules| == 0 then []
    else OfFamily(rules[..|rules| - 1], d) + (if DiscriminantOf(rules[|rules| - 1]) == d then [rules[|rules| - 1]] else [])
  }

  lemma {:induction false} GroupIgnoresOtherFamily(rules: seq<IptablesRule>, d: Discriminant)
    ensures Group(OfFamily(rules, d), d) == Group(rules, d)
  {
    if |rules| > 0 {
      var prefix := rules[..|rules| - 1];
      GroupIgnoresOtherFamily(prefix, d);
      var f := OfFamily(rules, d);
      var r := rules[|rules| - 1];
      if DiscriminantOf(r) == d {
        assert f == OfFamily(prefix, d) + [r];
        assert f[..|f| - 1] == OfFamily(prefix, d) && f[|f| - 1] == r;
      } else {
        assert f == OfFamily(prefix, d);
      }
    }
  }

  /** The grouped map is sorted at both levels, so tables and the chains
      inside each table come out in byte order. */
  lemma {:induction false} GroupWellFormed(rules: seq<IptablesRule>, d: Discriminant)
    ensures WellFormed(Group(rules, d))
  {
    if |rules| > 0 {
      var g := Group(rules[..|rules| - 1], d);
      GroupWellFormed(rules[..|rules| - 1], d);
      var r := rules[|rules| - 1];
      if DiscriminantOf(r) == d {
        var t, c := PolicyOrRuleOf(r).table, PolicyOrRuleOf(r).chain;
        var e := Entry(g, t, c);
        var e' := if PolicyOrRuleOf(r).Policy? then e.(policy := Some(PolicyOrRuleOf(r).policy))
                  else e.(rules := e.rules + [PolicyOrRuleOf(r).value]);
        assert Group(rules, d) == PutEntry(g, t, c, e');
        GetSorted(g, t);
        PutSorted(Get(g, t, []), c, e');
        PutRowsSorted(g, t, Put(Get(g, t, []), c, e'));
      }
    }
  }

  lemma {:induction false} GetSorted(g: TableMap, t: string)
    requires WellFormed(g)
    ensures Sorted(Get(g, t, []))
  {
    if |g| > 0 && g[0].0 != t {
      GetSorted(g[1..], t);
    }
  }

  lemma {:induction false} PutRowsSorted(g: TableMap, t: string, row: ChainMap)
    requires WellFormed(g) && Sorted(row)
    ensures WellFormed(Put(g, t, row))
  {
    PutSorted(g, t, row);
    if |g| > 0 && g[0].0 != t && !Text.LexLess(t, g[0].0) {
      PutRowsSorted(g[1..], t, row);
    }
  }

  /** A policy line appears exactly for the chains that have a policy. */
  lemma {:induction false} PolicyLineIff(chains: ChainMap, line: string)
    ensures line in PolicyLines(chains) <==>
      exists i :: 0 <= i < |chains| && chains[i].1.policy.Some?
        && line == PolicyLine(chains[i].0, chains[i].1.policy.value)
  {
    if |chains| > 0 {
      var prefix := chains[..|chains| - 1];
      PolicyLineIff(prefix, line);
      if exists i :: 0 <= i < |prefix| && prefix[i].1.policy.Some? && line == PolicyLine(prefix[i].0, prefix[i].1.policy.value) {
        var i :| 0 <= i < |prefix| && prefix[i].1.policy.Some? && line == PolicyLine(prefix[i].0, prefix[i].1.policy.value);
        assert chains[i] == prefix[i];
      }
      if exists i :: 0 <= i < |chains| && chains[i].1.policy.Some? && line == PolicyLine(chains[i].0, chains[i].1.policy.value) {
        var i :| 0 <= i < |chains| && chains[i].1.policy.Some? && line == PolicyLine(chains[i].0, chains[i].1.policy.value);
        if i < |prefix| {
          assert chains[i] == prefix[i];
        }
      }
    }
  }

  // ---------------------------------------------------------------------
  // Reading the written text back

  /** The text written: every line followed by a newline. */
  function Output(lines: seq<string>): string {
    if |lines| == 0 then "" else Output(lines[..|lines| - 1]) + lines[|lines| - 1] + "\n"
  }

  /** `get_rules`: the text for one family, trimmed and split on newlines. */
  function GetRules(rules: seq<IptablesRule>, d: Discriminant): seq<string> {
    Text.Split(Text.Trim(Output(Serialize(rules, d))), '\n')
  }

  lemma {:induction false} OutputJoin(lines: seq<string>)
    requires |lines| > 0
    ensures Output(lines) == Text.Join(lines, "\n") + "\n"
  {
    var prefix := lines[..|lines| - 1];
    if |prefix| > 0 {
      OutputJoin(prefix);
    }
    Text.JoinSnoc(prefix, lines[|lines| - 1], "\n");
    assert prefix + [lines[|lines| - 1]] == lines;
  }

  /** A non-empty rendering starts with the first table's header and ends
      with `COMMIT`. */
  lemma {:induction false} RenderTablesEnds(g: TableMap)
    requires |g| > 0
    ensures |RenderTables(g)| > 0
    ensures RenderTables(g)[0] == "*" + g[0].0
    ensures RenderTables(g)[|RenderTables(g)| - 1] == "COMMIT"
  {
    if |g| > 1 {
      RenderTablesEnds(g[..|g| - 1]);
    }
  }

  /** Reading the text back yields the written lines, provided no table,
      chain, policy or rule contains a newline; an empty rule set reads
      back as one empty line. */
  lemma GetRulesLines(rules: seq<IptablesRule>, d: Discriminant)
    requires forall i :: 0 <= i < |Serialize(rules, d)| ==> '\n' !in Serialize(rules, d)[i]
    ensures GetRules(rules, d) == if Serialize(rules, d) == [] then [""] else Serialize(rules, d)
  {
    var lines := Serialize(rules, d);
    if lines != [] {
      var g := Group(rules, d);
      RenderTablesEnds(g);
      OutputJoin(lines);
      var j := Text.Join(lines, "\n");
      JoinEnds(lines, "\n");
      assert Text.TrimEnd(j + "\n") == j by {
        assert (j + "\n")[..|j|] == j;
      }
      assert Text.TrimStart(j) == j;
      Text.SplitJoin(lines, '\n');
    }
  }

  /** A join of lines starts with the first line and ends with the last. */
  lemma {:induction false} JoinEnds(lines: seq<string>, sep: string)
    requires |lines| > 0
    ensures lines[0] <= Text.Join(lines, sep)
    ensures var j := Text.Join(lines, sep); var l := lines[|lines| - 1];
      |l| <= |j| && j[|j| - |l|..] == l
  {
    if |lines| > 1 {
      JoinEnds(lines[1..], sep);
    }
  }
}
