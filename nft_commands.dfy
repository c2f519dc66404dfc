/** The nft command templates: one line of an `nft -f` script per call.
    The engine keeps two identical copies of these (a public one and a
    private one next to the processors); both are this module. */
module NftCommands {
  import opened Wrappers
  import opened NftTypes
  import Text

  /** The Rust types of the numbers the templates print. */
  type I16 = x: int | -32768 <= x < 32768
  type U32 = x: int | 0 <= x < 0x1_0000_0000

  /** A table, chain or similar name: one word. */
  predicate IsWord(s: string) {
    ' ' !in s
  }

  /** Words separated by single spaces, as `format!` lays out the
      templates below. */
  function Spaced(words: seq<string>): string {
    Text.Join(words, " ")
  }

  /** "add table F T" */
  function AddTable(f: Family, table: string): string {
    Spaced(["add", "table", FamilyName(f), table])
  }

  /** "flush table F T" */
  function FlushTable(f: Family, table: string): string {
    Spaced(["flush", "table", FamilyName(f), table])
  }

  /** "delete table F T" */
  function DeleteTable(f: Family, table: string): string {
    Spaced(["delete", "table", FamilyName(f), table])
  }

  /** "add chain F T C" */
  function AddChain(f: Family, table: string, chain: string): string {
    Spaced(["add", "chain", FamilyName(f), table, chain])
  }

  /** "add chain F T C { type X hook H priority P ; }" */
  function AddBaseChain(f: Family, table: string, chain: string, t: ChainType, h: Hook, priority: I16): string {
    Spaced(["add", "chain", FamilyName(f), table, chain,
            "{", "type", ChainTypeName(t), "hook", HookName(h), "priority", Text.IntToString(priority), ";", "}"])
  }

  /** "add chain F T C { policy p ; }" */
  function SetChainPolicy(f: Family, table: string, chain: string, p: ChainPolicy): string {
    Spaced(["add", "chain", FamilyName(f), table, chain, "{", "policy", ChainPolicyName(p), ";", "}"])
  }

  /** "add rule F T C R" */
  function AddRule(f: Family, table: string, chain: string, rule: string): string {
    Spaced(["add", "rule", FamilyName(f), table, chain]) + " " + rule
  }

  /** "insert rule F T C R", or "insert rule F T C position N R". */
  function InsertRule(f: Family, table: string, chain: string, rule: string, position: Option<U32>): string {
    var head := ["insert", "rule", FamilyName(f), table, chain];
    match position
    case None => Spaced(head) + " " + rule
    case Some(n) => Spaced(head + ["position", Text.NatToString(n)]) + " " + rule
  }

  // ---------------------------------------------------------------------
  // Reading the commands back

  /** The words of a command, as nft's tokenizer separates them on spaces. */
  function Words(cmd: string): seq<string> {
    Text.Split(cmd, ' ')
  }

  /** The three table commands read back as verb, `table`, family, table. */
  lemma {:induction false} TableCommandWords(f: Family, table: string)
    requires IsWord(table)
    ensures Words(AddTable(f, table)) == ["add", "table", FamilyName(f), table]
    ensures Words(FlushTable(f, table)) == ["flush", "table", FamilyName(f), table]
    ensures Words(DeleteTable(f, table)) == ["delete", "table", FamilyName(f), table]
  {
    Text.SplitJoin(["add", "table", FamilyName(f), table], ' ');
    Text.SplitJoin(["flush", "table", FamilyName(f), table], ' ');
    Text.SplitJoin(["delete", "table", FamilyName(f), table], ' ');
  }

  /** A plain chain reads back as `add`, `chain`, family, table, chain. */
  lemma {:induction false} AddChainWords(f: Family, table: string, chain: string)
    requires IsWord(table) && IsWord(chain)
    ensures Words(AddChain(f, table, chain)) == ["add", "chain", FamilyName(f), table, chain]
  {
    Text.SplitJoin(["add", "chain", FamilyName(f), table, chain], ' ');
  }

  /** A base chain is the plain chain followed by a braced block naming its
      type, hook and priority. */
  lemma {:induction false} AddBaseChainWords(f: Family, table: string, chain: string, t: ChainType, h: Hook, priority: I16)
    requires IsWord(table) && IsWord(chain)
    ensures Words(AddBaseChain(f, table, chain, t, h, priority))
      == ["add", "chain", FamilyName(f), table, chain, "{", "type", ChainTypeName(t), "hook", HookName(h),
          "priority", Text.IntToString(priority), ";", "}"]
  {
    var ps := Text.IntToString(priority);
    assert ' ' !in ps by {
      if priority < 0 {
        assert ps[1..] == Text.NatToString(-(priority as int));
      }
    }
    Text.SplitJoin(["add", "chain", FamilyName(f), table, chain, "{", "type", ChainTypeName(t), "hook", HookName(h),
                    "priority", ps, ";", "}"], ' ');
  }

  /** A policy command is the plain chain followed by `{ policy p ; }`. */
  lemma {:induction false} SetChainPolicyWords(f: Family, table: string, chain: string, p: ChainPolicy)
    requires IsWord(table) && IsWord(chain)
    ensures Words(SetChainPolicy(f, table, chain, p))
      == ["add", "chain", FamilyName(f), table, chain, "{", "policy", ChainPolicyName(p), ";", "}"]
  {
    assert ' ' !in ChainPolicyName(p);
    Text.SplitJoin(["add", "chain", FamilyName(f), table, chain, "{", "policy", ChainPolicyName(p), ";", "}"], ' ');
  }

  /** An added rule reads back as `add rule`, family, table, chain and then
      the words of the rule itself. */
  lemma {:induction false} AddRuleWords(f: Family, table: string, chain: string, rule: string)
    requires IsWord(table) && IsWord(chain)
    ensures Words(AddRule(f, table, chain, rule)) == ["add", "rule", FamilyName(f), table, chain] + Words(rule)
  {
    Text.SplitJoinThen(["add", "rule", FamilyName(f), table, chain], rule, ' ');
  }

  /** An inserted rule reads back like an added one with the verb `insert`
      and, only when a position is given, `position N` before the rule. */
  lemma {:induction false} InsertRuleWords(f: Family, table: string, chain: string, rule: string, position: Option<U32>)
    requires IsWord(table) && IsWord(chain)
    ensures position.None? ==>
      Words(InsertRule(f, table, chain, rule, position)) == ["insert", "rule", FamilyName(f), table, chain] + Words(rule)
    ensures position.Some? ==>
      Words(InsertRule(f, table, chain, rule, position))
        == ["insert", "rule", FamilyName(f), table, chain, "position", Text.NatToString(position.value)] + Words(rule)
  {
    var head := ["insert", "rule", FamilyName(f), table, chain];
    match position
    case None =>
      Text.SplitJoinThen(head, rule, ' ');
    case Some(n) =>
      assert ' ' !in Text.NatToString(n);
      Text.SplitJoinThen(head + ["position", Text.NatToString(n)], rule, ' ');
  }

  /** Inserting without a position differs from adding only in the verb. */
  lemma InsertWithoutPosition(f: Family, table: string, chain: string, rule: string)
    ensures InsertRule(f, table, chain, rule, None) == "insert" + AddRule(f, table, chain, rule)[|"add"|..]
  {
    var rest := Spaced(["rule", FamilyName(f), table, chain]) + " " + rule;
    assert ["add", "rule", FamilyName(f), table, chain][1..] == ["rule", FamilyName(f), table, chain];
    assert ["insert", "rule", FamilyName(f), table, chain][1..] == ["rule", FamilyName(f), table, chain];
    assert AddRule(f, table, chain, rule) == "add" + (" " + rest);
    assert InsertRule(f, table, chain, rule, None) == "insert" + (" " + rest);
  }
}
