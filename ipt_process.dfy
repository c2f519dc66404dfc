/** The iptables processing of a whole configuration: the fixed prologue
    that creates and flushes DFW's chains and hooks them into the built-in
    chains, then every section's rules in a fixed order. */
module IptProcess {
  import opened Wrappers
  import opened IptRestore
  import opened IptCommands
  import opened Process
  import opened Config
  import opened IptSections
  import opened IptForward

  /** The chains DFW owns, with their tables, in the order they are set up. */
  const DfwChains: seq<(string, string)> := [
    ("filter", DfwForwardChain), ("filter", DfwInputChain),
    ("nat", DfwPostroutingChain), ("nat", DfwPreroutingChain)]

  /** The rules every run starts with, in the order the engine lists them:
      the chain set-up, then the hooks. */
  const IptPrologue: seq<IptablesRule> := PrologueChains + PrologueHooks

  /** Each DFW chain is created and flushed for both families. */
  const PrologueChains: seq<IptablesRule> := [
    NewChain(Discriminant.V4, "filter", DfwForwardChain),
    FlushChain(Discriminant.V4, "filter", DfwForwardChain),
    NewChain(Discriminant.V6, "filter", DfwForwardChain),
    FlushChain(Discriminant.V6, "filter", DfwForwardChain),
    NewChain(Discriminant.V4, "filter", DfwInputChain),
    FlushChain(Discriminant.V4, "filter", DfwInputChain),
    NewChain(Discriminant.V6, "filter", DfwInputChain),
    FlushChain(Discriminant.V6, "filter", DfwInputChain),
    NewChain(Discriminant.V4, "nat", DfwPostroutingChain),
    FlushChain(Discriminant.V4, "nat", DfwPostroutingChain),
    NewChain(Discriminant.V6, "nat", DfwPostroutingChain),
    FlushChain(Discriminant.V6, "nat", DfwPostroutingChain),
    NewChain(Discriminant.V4, "nat", DfwPreroutingChain),
    FlushChain(Discriminant.V4, "nat", DfwPreroutingChain),
    NewChain(Discriminant.V6, "nat", DfwPreroutingChain),
    FlushChain(Discriminant.V6, "nat", DfwPreroutingChain)]

  /** Connection tracking on the input and forward chains; the built-in
      chains jump to DFW's chains and keep their own policy (`-`). */
  const PrologueHooks: seq<IptablesRule> := [
    AppendRule(Discriminant.V4, "filter", DfwInputChain, "-m state --state INVALID -j DROP"),
    AppendRule(Discriminant.V6, "filter", DfwInputChain, "-m state --state INVALID -j DROP"),
    AppendRule(Discriminant.V4, "filter", DfwInputChain, "-m state --state RELATED,ESTABLISHED -j ACCEPT"),
    AppendRule(Discriminant.V6, "filter", DfwInputChain, "-m state --state RELATED,ESTABLISHED -j ACCEPT"),
    AppendRule(Discriminant.V4, "filter", "INPUT", "-j " + DfwInputChain),
    SetPolicy(Discriminant.V4, "filter", "INPUT", "-"),
    AppendRule(Discriminant.V4, "filter", DfwForwardChain, "-m state --state INVALID -j DROP"),
    AppendRule(Discriminant.V6, "filter", DfwForwardChain, "-m state --state INVALID -j DROP"),
    AppendRule(Discriminant.V4, "filter", DfwForwardChain, "-m state --state RELATED,ESTABLISHED -j ACCEPT"),
    AppendRule(Discriminant.V6, "filter", DfwForwardChain, "-m state --state RELATED,ESTABLISHED -j ACCEPT"),
    AppendRule(Discriminant.V4, "filter", "FORWARD", "-j " + DfwForwardChain),
    SetPolicy(Discriminant.V4, "filter", "FORWARD", "-"),
    AppendRule(Discriminant.V4, "nat", "PREROUTING", "-j " + DfwPreroutingChain),
    SetPolicy(Discriminant.V4, "nat", "PREROUTING", "-"),
    AppendRule(Discriminant.V4, "nat", "POSTROUTING", "-j " + DfwPostroutingChain),
    SetPolicy(Discriminant.V4, "nat", "POSTROUTING", "-")]

  function CtcFn(ctx: Context): ContainerToContainer -> Result<Option<seq<IptablesRule>>> {
    c => CtcSection(c, ctx)
  }

  function CtwwFn(ctx: Context): ContainerToWiderWorld -> Result<Option<seq<IptablesRule>>> {
    c => CtwwSection(c, ctx)
  }

  function CthFn(ctx: Context): ContainerToHost -> Result<Option<seq<IptablesRule>>> {
    c => CthSection(c, ctx)
  }

  function WwtcFn(ctx: Context): WiderWorldToContainer -> Result<Option<seq<IptablesRule>>> {
    w => WwtcSection(w, ctx)
  }

  function CdnatFn(ctx: Context): ContainerDnat -> Result<Option<seq<IptablesRule>>> {
    c => CdnatSection(c, ctx)
  }

  /** The backend defaults and the five optional rule sections, in
      processing order; the global defaults come after them. */
  function LeadingSections(dfw: Dfw<IptDefaults>, ctx: Context): seq<Result<Option<seq<IptablesRule>>>> {
    [ProcessOption(dfw.backendDefaults, DefaultsFn()),
     ProcessOption(dfw.containerToContainer, CtcFn(ctx)),
     ProcessOption(dfw.containerToWiderWorld, CtwwFn(ctx)),
     ProcessOption(dfw.containerToHost, CthFn(ctx)),
     ProcessOption(dfw.widerWorldToContainer, WwtcFn(ctx)),
     ProcessOption(dfw.containerDnat, CdnatFn(ctx))]
  }

  /** Every section's output, in processing order. */
  function IptSectionsOf(dfw: Dfw<IptDefaults>, ctx: Context): seq<Result<Option<seq<IptablesRule>>>> {
    LeadingSections(dfw, ctx) + [GlobalDefaultsSection(dfw.globalDefaults, ctx)]
  }

  /** `Process for DFW<Iptables>`: the prologue, then the sections. */
  function IptDfw(dfw: Dfw<IptDefaults>, ctx: Context): Result<Option<seq<IptablesRule>>> {
    var sections :- Flatten(IptSectionsOf(dfw, ctx));
    Ok(Some(IptPrologue + sections))
  }

  /** Every section's output, in processing order. */
  method ProcessSections(dfw: Dfw<IptDefaults>, ctx: Context) returns (sections: seq<Result<Option<seq<IptablesRule>>>>)
    ensures sections == IptSectionsOf(dfw, ctx)
  {
    var defaults: Result<Option<seq<IptablesRule>>> := Ok(None);
    if dfw.backendDefaults.Some? {
      defaults := ProcessDefaults(dfw.backendDefaults.value);
    }
    assert defaults == ProcessOption(dfw.backendDefaults, DefaultsFn());
    var ctc: Result<Option<seq<IptablesRule>>> := Ok(None);
    if dfw.containerToContainer.Some? {
      ctc := ProcessCtc(dfw.containerToContainer.value, ctx);
    }
    assert ctc == ProcessOption(dfw.containerToContainer, CtcFn(ctx));
    var ctww: Result<Option<seq<IptablesRule>>> := Ok(None);
    if dfw.containerToWiderWorld.Some? {
      ctww := ProcessCtww(dfw.containerToWiderWorld.value, ctx);
    }
    assert ctww == ProcessOption(dfw.containerToWiderWorld, CtwwFn(ctx));
    var cth: Result<Option<seq<IptablesRule>>> := Ok(None);
    if dfw.containerToHost.Some? {
      cth := ProcessCth(dfw.containerToHost.value, ctx);
    }
    assert cth == ProcessOption(dfw.containerToHost, CthFn(ctx));
    var wwtc: Result<Option<seq<IptablesRule>>> := Ok(None);
    if dfw.widerWorldToContainer.Some? {
      wwtc := ProcessWwtc(dfw.widerWorldToContainer.value, ctx);
    }
    assert wwtc == ProcessOption(dfw.widerWorldToContainer, WwtcFn(ctx));
    var cdnat: Result<Option<seq<IptablesRule>>> := Ok(None);
    if dfw.containerDnat.Some? {
      cdnat := ProcessCdnat(dfw.containerDnat.value, ctx);
    }
    assert cdnat == ProcessOption(dfw.containerDnat, CdnatFn(ctx));
    var global := ProcessGlobalDefaults(dfw.globalDefaults, ctx);
    assert [defaults, ctc, ctww, cth, wwtc, cdnat] == LeadingSections(dfw, ctx);
    sections := [defaults, ctc, ctww, cth, wwtc, cdnat] + [global];
  }

  /** `Process for DFW<Iptables>`, as the engine runs it; the first
      section that fails ends the run with its error. */
  method ProcessIptDfw(dfw: Dfw<IptDefaults>, ctx: Context) returns (r: Result<Option<seq<IptablesRule>>>)
    ensures r == IptDfw(dfw, ctx)
  {
    var sections := ProcessSections(dfw, ctx);
    var rules :- AppendSections(sections);
    return Ok(Some(IptPrologue + rules));
  }

  /** The output always starts with the prologue; the run fails exactly
      when one of the sections fails, with the first failing section's
      error. */
  lemma IptDfwOutcome(dfw: Dfw<IptDefaults>, ctx: Context)
    ensures IptDfw(dfw, ctx).Ok? ==> IptDfw(dfw, ctx).value.Some? && IptPrologue <= IptDfw(dfw, ctx).value.value
    ensures IptDfw(dfw, ctx).Err? <==> exists i :: 0 <= i < 7 && IptSectionsOf(dfw, ctx)[i].Err?
    ensures IptDfw(dfw, ctx).Err? ==>
      exists i :: 0 <= i < 7 && IptSectionsOf(dfw, ctx)[i] == IptDfw(dfw, ctx)
        && forall j :: 0 <= j < i ==> IptSectionsOf(dfw, ctx)[j].Ok?
  {
    var sections := IptSectionsOf(dfw, ctx);
    ProcessAllError(sections, SectionOf());
    if IptDfw(dfw, ctx).Err? {
      var i :| 0 <= i < |sections| && sections[i].Err? && Flatten(sections).error == sections[i].error
        && forall j :: 0 <= j < i ==> SectionOf()(sections[j]).Ok?;
      assert sections[i] == IptDfw(dfw, ctx);
    }
  }

  /** The global defaults are processed last: their rules end the output. */
  lemma GlobalDefaultsLast(dfw: Dfw<IptDefaults>, ctx: Context)
    requires IptDfw(dfw, ctx).Ok?
    ensures GlobalDefaultsSection(dfw.globalDefaults, ctx).Ok?
    ensures var out := IptDfw(dfw, ctx).value.value;
      var global := Contribution(GlobalDefaultsSection(dfw.globalDefaults, ctx).value);
      |global| <= |out| && out[|out| - |global|..] == global
  {
    var global := GlobalDefaultsSection(dfw.globalDefaults, ctx);
    ProcessAllAppend(LeadingSections(dfw, ctx), [global], SectionOf());
    ProcessAllSingle(global, SectionOf());
    var out := IptDfw(dfw, ctx).value.value;
    var lead := ProcessAll(LeadingSections(dfw, ctx), SectionOf()).value;
    assert out == (IptPrologue + lead) + Contribution(global.value);
  }

  // ---------------------------------------------------------------------
  // Chain set-up

  /** A chain's set-up: created, then flushed, in V4 and then in V6. */
  function Setup(chain: (string, string)): seq<IptablesRule> {
    [NewChain(Discriminant.V4, chain.0, chain.1), FlushChain(Discriminant.V4, chain.0, chain.1),
     NewChain(Discriminant.V6, chain.0, chain.1), FlushChain(Discriminant.V6, chain.0, chain.1)]
  }

  /** The set-up of the given chains, one after the other. */
  function SetupOf(chains: seq<(string, string)>): seq<IptablesRule> {
    if |chains| == 0 then [] else Setup(chains[0]) + SetupOf(chains[1..])
  }

  /** The prologue opens with the set-up of every DFW chain. */
  lemma PrologueSetsUpChains()
    ensures |IptPrologue| == 32 && IptPrologue[..16] == SetupOf(DfwChains)
  {
    assert |PrologueChains| == 16 && |PrologueHooks| == 16;
    assert IptPrologue[..16] == PrologueChains;
    var s0, s1, s2, s3 := Setup(DfwChains[0]), Setup(DfwChains[1]), Setup(DfwChains[2]), Setup(DfwChains[3]);
    assert SetupOf(DfwChains[3..]) == s3 + SetupOf([]) by { assert DfwChains[3..][1..] == []; }
    assert SetupOf(DfwChains[2..]) == s2 + SetupOf(DfwChains[3..]) by { assert DfwChains[2..][1..] == DfwChains[3..]; }
    assert SetupOf(DfwChains[1..]) == s1 + SetupOf(DfwChains[2..]) by { assert DfwChains[1..][1..] == DfwChains[2..]; }
    assert SetupOf(DfwChains) == s0 + s1 + s2 + s3;
    PrologueBlock(0, 0);
    PrologueBlock(4, 1);
    PrologueBlock(8, 2);
    PrologueBlock(12, 3);
    assert PrologueChains == PrologueChains[..4] + PrologueChains[4..8] + PrologueChains[8..12] + PrologueChains[12..16];
  }

  /** The four chain set-up entries from `lo` on are the set-up of the
      `k`-th DFW chain. */
  lemma PrologueBlock(lo: nat, k: nat)
    requires k < 4 && lo == 4 * k
    ensures PrologueChains[lo..lo + 4] == Setup(DfwChains[k])
  {
    assert PrologueChains[lo..lo + 4] == [PrologueChains[lo], PrologueChains[lo + 1], PrologueChains[lo + 2], PrologueChains[lo + 3]];
  }

  /** A chain's set-up gives that chain, in either family, just its
      flush, and gives every other chain nothing. */
  lemma SetupRules(chain: (string, string), d: Discriminant, table: string, name: string)
    ensures RulesFor(Setup(chain), d, table, name)
      == if chain == (table, name) then ["-F " + name] else []
  {
    var s := Setup(chain);
    assert s == [s[0]] + [s[1]] + [s[2]] + [s[3]];
    RulesForAppend([s[0]] + [s[1]] + [s[2]], [s[3]], d, table, name);
    RulesForAppend([s[0]] + [s[1]], [s[2]], d, table, name);
    RulesForAppend([s[0]], [s[1]], d, table, name);
    RulesForSingle(s[0], d, table, name);
    RulesForSingle(s[1], d, table, name);
    RulesForSingle(s[2], d, table, name);
    RulesForSingle(s[3], d, table, name);
  }

  /** The set-up of chains that do not include a chain gives it no rules. */
  lemma {:induction false} SetupOfOthers(chains: seq<(string, string)>, d: Discriminant, table: string, name: string)
    requires (table, name) !in chains
    ensures RulesFor(SetupOf(chains), d, table, name) == []
  {
    if |chains| > 0 {
      assert chains[0] in chains;
      assert forall x :: x in chains[1..] ==> x in chains;
      SetupOfOthers(chains[1..], d, table, name);
      SetupRules(chains[0], d, table, name);
      RulesForAppend(Setup(chains[0]), SetupOf(chains[1..]), d, table, name);
    }
  }

  /** The set-up of distinct chains gives each of them, in either
      family, just its flush. */
  lemma {:induction false} SetupOfRules(chains: seq<(string, string)>, k: nat, d: Discriminant)
    requires k < |chains|
    requires forall i :: 0 <= i < |chains| && i != k ==> chains[i] != chains[k]
    ensures RulesFor(SetupOf(chains), d, chains[k].0, chains[k].1) == ["-F " + chains[k].1]
  {
    var t, c := chains[k].0, chains[k].1;
    SetupRules(chains[0], d, t, c);
    RulesForAppend(Setup(chains[0]), SetupOf(chains[1..]), d, t, c);
    if k == 0 {
      assert (t, c) !in chains[1..] by {
        forall i | 0 <= i < |chains[1..]|
          ensures chains[1..][i] != (t, c)
        {
          assert chains[1..][i] == chains[i + 1];
        }
      }
      SetupOfOthers(chains[1..], d, t, c);
    } else {
      assert chains[0] != chains[k];
      assert chains[1..][k - 1] == chains[k];
      forall i | 0 <= i < |chains[1..]| && i != k - 1
        ensures chains[1..][i] != chains[1..][k - 1]
      {
        assert chains[1..][i] == chains[i + 1];
      }
      SetupOfRules(chains[1..], k - 1, d);
    }
  }

  /** In the restore input each DFW chain's rules, in either family,
      start with its flush, ahead of every section's rules: each run
      starts DFW's chains from scratch. */
  lemma PrologueFlushesFirst(dfw: Dfw<IptDefaults>, ctx: Context, k: nat, d: Discriminant)
    requires k < 4 && IptDfw(dfw, ctx).Ok?
    ensures var chain := RulesFor(IptDfw(dfw, ctx).value.value, d, DfwChains[k].0, DfwChains[k].1);
      |chain| > 0 && chain[0] == "-F " + DfwChains[k].1
  {
    var out := IptDfw(dfw, ctx).value.value;
    PrologueSetsUpChains();
    IptDfwOutcome(dfw, ctx);
    assert out == SetupOf(DfwChains) + out[16..] by {
      assert out[..16] == IptPrologue[..16];
      assert out == out[..16] + out[16..];
    }
    DfwChainsDistinct(k);
    SetupOfRules(DfwChains, k, d);
    RulesForAppend(SetupOf(DfwChains), out[16..], d, DfwChains[k].0, DfwChains[k].1);
  }

  /** The four DFW chains are pairwise distinct. */
  lemma DfwChainsDistinct(k: nat)
    requires k < 4
    ensures forall i :: 0 <= i < 4 && i != k ==> DfwChains[i] != DfwChains[k]
  {
    forall i | 0 <= i < 4 && i != k
      ensures DfwChains[i] != DfwChains[k]
    {
      assert |DfwChains[i].1| != |DfwChains[k].1|;
    }
  }
}
