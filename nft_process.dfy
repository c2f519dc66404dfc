/** The nftables processing of a whole configuration: the fixed prologue
    that (re)creates DFW's tables and base chains, then every section's
    commands in a fixed order. */
module NftProcess {
  import opened Wrappers
  import opened NftTypes
  import opened NftCommands
  import opened Process
  import opened Config
  import opened NftSections
  import opened NftForward
  import Text

  /** The tables and base chains DFW owns, flushed so that every run
      starts from scratch, with the connection-tracking rules of the
      filter chains: the `inet` table, then the `ip` and `ip6` tables. */
  const Prologue: seq<string> := InetPrologue + IpPrologue + Ip6Prologue

  const InetPrologue: seq<string> := [
    AddTable(Inet, "dfw"),
    FlushTable(Inet, "dfw"),
    AddBaseChain(Inet, "dfw", "input", Filter, Input, PriorityInetFilterAnyDfw),
    AddRule(Inet, "dfw", "input", CtStateInvalidDrop),
    AddRule(Inet, "dfw", "input", CtStateRelatedEstablishedAccept),
    AddBaseChain(Inet, "dfw", "forward", Filter, Forward, PriorityInetFilterAnyDfw),
    AddRule(Inet, "dfw", "forward", CtStateInvalidDrop),
    AddRule(Inet, "dfw", "forward", CtStateRelatedEstablishedAccept)]

  const IpPrologue: seq<string> := [
    AddTable(Ip, "dfw"),
    FlushTable(Ip, "dfw"),
    AddBaseChain(Ip, "dfw", "prerouting", Nat, Prerouting, PriorityIpNatPreroutingDfw),
    AddBaseChain(Ip, "dfw", "postrouting", Nat, Postrouting, PriorityIpNatPostroutingDfw)]

  const Ip6Prologue: seq<string> := [
    AddTable(Ip6, "dfw"),
    FlushTable(Ip6, "dfw"),
    AddBaseChain(Ip6, "dfw", "prerouting", Nat, Prerouting, PriorityIp6NatPreroutingDfw),
    AddBaseChain(Ip6, "dfw", "postrouting", Nat, Postrouting, PriorityIp6NatPostroutingDfw)]

  /** The backend defaults, falling back to the empty section so that the
      deprecated top-level settings still apply. */
  function BackendDefaults(dfw: Dfw<NftDefaults>): NftDefaults {
    dfw.backendDefaults.UnwrapOr(NftDefaultsDefault)
  }

  function CtcFn(ctx: Context): ContainerToContainer -> Result<Option<seq<string>>> {
    c => CtcSection(c, ctx)
  }

  function CtwwFn(ctx: Context): ContainerToWiderWorld -> Result<Option<seq<string>>> {
    c => CtwwSection(c, ctx)
  }

  function CthFn(ctx: Context): ContainerToHost -> Result<Option<seq<string>>> {
    c => CthSection(c, ctx)
  }

  function WwtcFn(ctx: Context): WiderWorldToContainer -> Result<Option<seq<string>>> {
    w => WwtcSection(w, ctx)
  }

  function CdnatFn(ctx: Context): ContainerDnat -> Result<Option<seq<string>>> {
    c => CdnatSection(c, ctx)
  }

  /** The five optional rule sections, in processing order. */
  function RuleSections(dfw: Dfw<NftDefaults>, ctx: Context): seq<Result<Option<seq<string>>>> {
    [ProcessOption(dfw.containerToContainer, CtcFn(ctx)),
     ProcessOption(dfw.containerToWiderWorld, CtwwFn(ctx)),
     ProcessOption(dfw.containerToHost, CthFn(ctx)),
     ProcessOption(dfw.widerWorldToContainer, WwtcFn(ctx)),
     ProcessOption(dfw.containerDnat, CdnatFn(ctx))]
  }

  /** `Process for DFW<Nftables>`: the prologue, then the backend
      defaults, the global defaults and the five rule sections. */
  function NftDfw(dfw: Dfw<NftDefaults>, ctx: Context): Result<Option<seq<string>>> {
    var sections :- Flatten([DefaultsSection(BackendDefaults(dfw), dfw, ctx), GlobalDefaultsSection(dfw.globalDefaults, ctx)]
                            + RuleSections(dfw, ctx));
    Ok(Some(Prologue + sections))
  }

  /** Every section's output, in processing order. */
  method ProcessSections(dfw: Dfw<NftDefaults>, ctx: Context) returns (sections: seq<Result<Option<seq<string>>>>)
    ensures sections == [DefaultsSection(BackendDefaults(dfw), dfw, ctx), GlobalDefaultsSection(dfw.globalDefaults, ctx)]
                        + RuleSections(dfw, ctx)
  {
    var defaults := ProcessDefaults(BackendDefaults(dfw), dfw, ctx);
    var global := ProcessGlobalDefaults(dfw.globalDefaults, ctx);
    var ctc: Result<Option<seq<string>>> := Ok(None);
    if dfw.containerToContainer.Some? {
      ctc := ProcessCtc(dfw.containerToContainer.value, ctx);
    }
    assert ctc == ProcessOption(dfw.containerToContainer, CtcFn(ctx));
    var ctww: Result<Option<seq<string>>> := Ok(None);
    if dfw.containerToWiderWorld.Some? {
      ctww := ProcessCtww(dfw.containerToWiderWorld.value, ctx);
    }
    assert ctww == ProcessOption(dfw.containerToWiderWorld, CtwwFn(ctx));
    var cth: Result<Option<seq<string>>> := Ok(None);
    if dfw.containerToHost.Some? {
      cth := ProcessCth(dfw.containerToHost.value, ctx);
    }
    assert cth == ProcessOption(dfw.containerToHost, CthFn(ctx));
    var wwtc: Result<Option<seq<string>>> := Ok(None);
    if dfw.widerWorldToContainer.Some? {
      wwtc := ProcessWwtc(dfw.widerWorldToContainer.value, ctx);
    }
    assert wwtc == ProcessOption(dfw.widerWorldToContainer, WwtcFn(ctx));
    var cdnat: Result<Option<seq<string>>> := Ok(None);
    if dfw.containerDnat.Some? {
      cdnat := ProcessCdnat(dfw.containerDnat.value, ctx);
    }
    assert cdnat == ProcessOption(dfw.containerDnat, CdnatFn(ctx));
    assert [ctc, ctww, cth, wwtc, cdnat] == RuleSections(dfw, ctx);
    sections := [defaults, global] + [ctc, ctww, cth, wwtc, cdnat];
  }

  /** `Process for DFW<Nftables>`, as the engine runs it; the first
      section that fails ends the run with its error. */
  method ProcessNftDfw(dfw: Dfw<NftDefaults>, ctx: Context) returns (r: Result<Option<seq<string>>>)
    ensures r == NftDfw(dfw, ctx)
  {
    var sections := ProcessSections(dfw, ctx);
    var rules :- AppendSections(sections);
    return Ok(Some(Prologue + rules));
  }

  /** The output always starts with the prologue; the run fails exactly
      when the global defaults or one of the rule sections fails (the
      backend defaults never do), with the first failing section's error. */
  lemma NftDfwOutcome(dfw: Dfw<NftDefaults>, ctx: Context)
    ensures NftDfw(dfw, ctx).Ok? ==> NftDfw(dfw, ctx).value.Some? && Prologue <= NftDfw(dfw, ctx).value.value
    ensures NftDfw(dfw, ctx).Err? <==>
      GlobalDefaultsSection(dfw.globalDefaults, ctx).Err? || exists i :: 0 <= i < 5 && RuleSections(dfw, ctx)[i].Err?
  {
    var sections := [DefaultsSection(BackendDefaults(dfw), dfw, ctx), GlobalDefaultsSection(dfw.globalDefaults, ctx)]
                    + RuleSections(dfw, ctx);
    ProcessAllError(sections, SectionOf());
    assert sections[0].Ok? && sections[1] == GlobalDefaultsSection(dfw.globalDefaults, ctx);
    if GlobalDefaultsSection(dfw.globalDefaults, ctx).Err? {
      assert sections[1].Err?;
    }
    if exists i :: 0 <= i < 5 && RuleSections(dfw, ctx)[i].Err? {
      var i :| 0 <= i < 5 && RuleSections(dfw, ctx)[i].Err?;
      assert sections[i + 2].Err?;
    }
    if exists i :: 0 <= i < |sections| && sections[i].Err? {
      var i :| 0 <= i < |sections| && sections[i].Err?;
      if i >= 2 {
        assert RuleSections(dfw, ctx)[i - 2].Err?;
      }
    }
  }

  /** Without a backend section the deprecated top-level initialization
      rules follow the prologue directly. */
  lemma DeprecatedInitializationFollowsPrologue(dfw: Dfw<NftDefaults>, ctx: Context)
    requires dfw.backendDefaults.None? && dfw.initialization.Some? && dfw.initialization.value.rules.Some?
    requires NftDfw(dfw, ctx).Ok?
    ensures Prologue + dfw.initialization.value.rules.value <= NftDfw(dfw, ctx).value.value
  {
    var d := BackendDefaults(dfw);
    InitializationFirst(d, dfw, ctx);
    var init := dfw.initialization.value.rules.value;
    assert init <= DefaultsSection(d, dfw, ctx).value.value;
    var sections := [DefaultsSection(d, dfw, ctx), GlobalDefaultsSection(dfw.globalDefaults, ctx)]
                    + RuleSections(dfw, ctx);
    ProcessAllFirst(sections, SectionOf());
    var rest := Flatten(sections).value;
    assert DefaultsSection(d, dfw, ctx).value.value <= rest;
    assert NftDfw(dfw, ctx).value.value == Prologue + rest;
    PrefixUnder(Prologue, init, rest);
  }

  lemma PrefixUnder(head: seq<string>, init: seq<string>, rest: seq<string>)
    requires init <= rest
    ensures head + init <= head + rest
  {
    assert (head + rest)[..|head + init|] == head + init;
  }

  /** The base chains hook into netfilter five priority steps ahead of
      the chains of the same hook. */
  lemma PrologueBaseChains()
    ensures Words(Prologue[2])
      == ["add", "chain", "inet", "dfw", "input", "{", "type", "filter", "hook", "input", "priority", "-5", ";", "}"]
    ensures Words(Prologue[10])
      == ["add", "chain", "ip", "dfw", "prerouting", "{", "type", "nat", "hook", "prerouting", "priority", "-105", ";", "}"]
    ensures Words(Prologue[11])
      == ["add", "chain", "ip", "dfw", "postrouting", "{", "type", "nat", "hook", "postrouting", "priority", "95", ";", "}"]
  {
    PrologueInputChain();
    PrologueNatChains();
  }

  lemma PrologueInputChain()
    ensures Words(Prologue[2])
      == ["add", "chain", "inet", "dfw", "input", "{", "type", "filter", "hook", "input", "priority", "-5", ";", "}"]
  {
    PriorityTexts();
    assert |InetPrologue| == 8 && Prologue[2] == InetPrologue[2];
    assert Prologue[2] == AddBaseChain(Inet, "dfw", "input", Filter, Input, PriorityInetFilterAnyDfw);
    AddBaseChainWords(Inet, "dfw", "input", Filter, Input, PriorityInetFilterAnyDfw);
  }

  lemma PrologueNatChains()
    ensures Words(Prologue[10])
      == ["add", "chain", "ip", "dfw", "prerouting", "{", "type", "nat", "hook", "prerouting", "priority", "-105", ";", "}"]
    ensures Words(Prologue[11])
      == ["add", "chain", "ip", "dfw", "postrouting", "{", "type", "nat", "hook", "postrouting", "priority", "95", ";", "}"]
  {
    PriorityTexts();
    assert |InetPrologue| == 8 && |IpPrologue| == 4;
    assert Prologue[10] == IpPrologue[2] && Prologue[11] == IpPrologue[3];
    assert Prologue[10] == AddBaseChain(Ip, "dfw", "prerouting", Nat, Prerouting, PriorityIpNatPreroutingDfw);
    assert Prologue[11] == AddBaseChain(Ip, "dfw", "postrouting", Nat, Postrouting, PriorityIpNatPostroutingDfw);
    AddBaseChainWords(Ip, "dfw", "prerouting", Nat, Prerouting, PriorityIpNatPreroutingDfw);
    AddBaseChainWords(Ip, "dfw", "postrouting", Nat, Postrouting, PriorityIpNatPostroutingDfw);
  }

  /** The three priorities as nft reads them. */
  lemma PriorityTexts()
    ensures Text.IntToString(PriorityInetFilterAnyDfw) == "-5"
    ensures Text.IntToString(PriorityIpNatPreroutingDfw) == "-105"
    ensures Text.IntToString(PriorityIpNatPostroutingDfw) == "95"
  {
    assert Text.NatToString(5) == "5";
    assert Text.NatToString(10) == "10" by { assert Text.NatToString(1) == "1"; }
    assert Text.NatToString(105) == "105";
    assert Text.NatToString(9) == "9";
    assert Text.NatToString(95) == "95";
  }
}
