/** The nftables rule builder: a set of optional fields rendered into one
    nft rule expression, with the clauses in a fixed order, `tcp` as the
    protocol of a port match, the DFW mark always set, and an error when
    nothing is matched. */
module NftRule {
  import opened Wrappers
  import opened NftTypes
  import Text

  /** The optional fields of the builder. */
  datatype Fields = Fields(
    inInterface: Option<string>,
    outInterface: Option<string>,
    sourceAddress: Option<string>,
    destinationAddress: Option<string>,
    sourceAddressV6: Option<string>,
    destinationAddressV6: Option<string>,
    protocol: Option<string>,
    sourcePort: Option<string>,
    destinationPort: Option<string>,
    matches: Option<string>,
    comment: Option<string>,
    verdict: Option<RuleVerdict>,
    dnat: Option<string>)

  /** A builder with nothing set. */
  const Unset: Fields := Fields(None, None, None, None, None, None, None, None, None, None, None, None, None)

  /** `[key, value]` when the value is present. */
  function Keyed(key: string, value: Option<string>): seq<string> {
    match value
    case Some(v) => [key, v]
    case None => []
  }

  /** The port match: the protocol (default `tcp`) followed by the ports,
      only when a port is set. */
  function PortClause(r: Fields): seq<string> {
    if r.sourcePort.Some? || r.destinationPort.Some? then
      [r.protocol.UnwrapOr("tcp")] + Keyed("sport", r.sourcePort) + Keyed("dport", r.destinationPort)
    else []
  }

  /** The address matches of one IP version. */
  function AddressClause(family: string, source: Option<string>, destination: Option<string>): seq<string> {
    (if source.Some? then [family, "saddr", source.value] else [])
      + (if destination.Some? then [family, "daddr", destination.value] else [])
  }

  /** The interface match: one `meta`, then `iifname` and `oifname`. */
  function InterfaceClause(r: Fields): seq<string> {
    if r.inInterface.Some? || r.outInterface.Some? then
      ["meta"] + Keyed("iifname", r.inInterface) + Keyed("oifname", r.outInterface)
    else []
  }

  /** Everything that selects packets, in rendering order. */
  function MatchArgs(r: Fields): seq<string> {
    PortClause(r) + AddressClause("ip", r.sourceAddress, r.destinationAddress)
      + AddressClause("ip6", r.sourceAddressV6, r.destinationAddressV6) + InterfaceClause(r)
  }

  /** The statement that marks every DFW packet. */
  const MarkClause: seq<string> := ["meta", "mark", "set", DfwMark]

  /** What happens to a matched packet: the verdict, else the DNAT target. */
  function ActionClause(r: Fields): seq<string> {
    if r.verdict.Some? then [RuleVerdictName(r.verdict.value)]
    else Keyed("dnat", r.dnat)
  }

  function CommentText(c: string): string {
    "comment \"" + c + "\""
  }

  /** The rendered rule as its list of space-separated pieces. */
  function Args(r: Fields): Result<seq<string>> {
    var m := MatchArgs(r);
    if |m| == 0 then Err(NoMatchCriterion)
    else Ok(m + Trailer(r))
  }

  /** What follows the match clauses: the mark, the free-form matches, the
      action and the comment. */
  function Trailer(r: Fields): seq<string> {
    MarkClause + (if r.matches.Some? then [r.matches.value] else []) + ActionClause(r)
      + (if r.comment.Some? then [CommentText(r.comment.value)] else [])
  }

  /** The rule expression `build` returns. */
  function Render(r: Fields): Result<string> {
    var args :- Args(r);
    Ok(Text.Join(args, " "))
  }

  /** True when the rule selects packets by a port, an address or an
      interface. */
  predicate HasMatchCriterion(r: Fields) {
    r.sourcePort.Some? || r.destinationPort.Some? || r.sourceAddress.Some? || r.destinationAddress.Some?
    || r.sourceAddressV6.Some? || r.destinationAddressV6.Some? || r.inInterface.Some? || r.outInterface.Some?
  }

  /** The mutable builder the processors fill in step by step. */
  class RuleBuilder {
    var inInterface: Option<string>
    var outInterface: Option<string>
    var sourceAddress: Option<string>
    var destinationAddress: Option<string>
    var sourceAddressV6: Option<string>
    var destinationAddressV6: Option<string>
    var protocol: Option<string>
    var sourcePort: Option<string>
    var destinationPort: Option<string>
    var matches: Option<string>
    var comment: Option<string>
    var verdict: Option<RuleVerdict>
    var dnat: Option<string>

    function Snapshot(): Fields
      reads this
    {
      Fields(inInterface, outInterface, sourceAddress, destinationAddress, sourceAddressV6,
             destinationAddressV6, protocol, sourcePort, destinationPort, matches, comment, verdict, dnat)
    }

    /** `RuleBuilder::default()`: every field unset. */
    constructor ()
      ensures Snapshot() == Unset
    {
      inInterface, outInterface, sourceAddress, destinationAddress := None, None, None, None;
      sourceAddressV6, destinationAddressV6, protocol, sourcePort := None, None, None, None;
      destinationPort, matches, comment, verdict, dnat := None, None, None, None, None;
    }

    /** A builder holding the given fields. */
    constructor Of(f: Fields)
      ensures Snapshot() == f
    {
      inInterface, outInterface, sourceAddress, destinationAddress := f.inInterface, f.outInterface, f.sourceAddress, f.destinationAddress;
      sourceAddressV6, destinationAddressV6, protocol := f.sourceAddressV6, f.destinationAddressV6, f.protocol;
      sourcePort, destinationPort, matches := f.sourcePort, f.destinationPort, f.matches;
      comment, verdict, dnat := f.comment, f.verdict, f.dnat;
    }

    /** `clone()`: an independent builder with the same fields. */
    method Clone() returns (c: RuleBuilder)
      ensures fresh(c) && c.Snapshot() == Snapshot()
    {
      c := new RuleBuilder.Of(Snapshot());
    }

    method SetInInterface(v: string)
      modifies this
      ensures Snapshot() == old(Snapshot()).(inInterface := Some(v))
    {
      inInterface := Some(v);
    }

    method SetOutInterface(v: string)
      modifies this
      ensures Snapshot() == old(Snapshot()).(outInterface := Some(v))
    {
      outInterface := Some(v);
    }

    method SetSourceAddress(v: string)
      modifies this
      ensures Snapshot() == old(Snapshot()).(sourceAddress := Some(v))
    {
      sourceAddress := Some(v);
    }

    method SetDestinationAddress(v: string)
      modifies this
      ensures Snapshot() == old(Snapshot()).(destinationAddress := Some(v))
    {
      destinationAddress := Some(v);
    }

    method SetSourceAddressV6(v: string)
      modifies this
      ensures Snapshot() == old(Snapshot()).(sourceAddressV6 := Some(v))
    {
      sourceAddressV6 := Some(v);
    }

    method SetDestinationAddressV6(v: string)
      modifies this
      ensures Snapshot() == old(Snapshot()).(destinationAddressV6 := Some(v))
    {
      destinationAddressV6 := Some(v);
    }

    method SetProtocol(v: string)
      modifies this
      ensures Snapshot() == old(Snapshot()).(protocol := Some(v))
    {
      protocol := Some(v);
    }

    method SetSourcePort(v: string)
      modifies this
      ensures Snapshot() == old(Snapshot()).(sourcePort := Some(v))
    {
      sourcePort := Some(v);
    }

    method SetDestinationPort(v: string)
      modifies this
      ensures Snapshot() == old(Snapshot()).(destinationPort := Some(v))
    {
      destinationPort := Some(v);
    }

    method SetMatches(v: string)
      modifies this
      ensures Snapshot() == old(Snapshot()).(matches := Some(v))
    {
      matches := Some(v);
    }

    method SetComment(v: string)
      modifies this
      ensures Snapshot() == old(Snapshot()).(comment := Some(v))
    {
      comment := Some(v);
    }

    method SetVerdict(v: RuleVerdict)
      modifies this
      ensures Snapshot() == old(Snapshot()).(verdict := Some(v))
    {
      verdict := Some(v);
    }

    method SetDnat(v: string)
      modifies this
      ensures Snapshot() == old(Snapshot()).(dnat := Some(v))
    {
      dnat := Some(v);
    }

    /** `build`: pushes the pieces clause by clause and joins them with
        single spaces; fails when no port, address or interface is set. */
    method Build() returns (r: Result<string>)
      ensures r == Render(Snapshot())
      ensures r.Err? <==> !HasMatchCriterion(Snapshot())
    {
      var f := Snapshot();
      var args := PushMatchClauses(f);
      MatchArgsEmptyIff(f);
      if |args| == 0 {
        return Err(NoMatchCriterion);
      }
      args := PushTailClauses(f, args);
      r := Ok(Text.Join(args, " "));
    }
  }

  /** The first half of `build`: the port, address and interface clauses. */
  method PushMatchClauses(f: Fields) returns (args: seq<string>)
    ensures args == MatchArgs(f)
  {
    args := PushPortClause(f, []);
    args := PushAddressClause("ip", f.sourceAddress, f.destinationAddress, args);
    args := PushAddressClause("ip6", f.sourceAddressV6, f.destinationAddressV6, args);
    args := PushInterfaceClause(f, args);
  }

  method PushPortClause(f: Fields, args: seq<string>) returns (out: seq<string>)
    ensures out == args + PortClause(f)
  {
    out := args;
    if f.sourcePort.Some? || f.destinationPort.Some? {
      out := out + [f.protocol.UnwrapOr("tcp")];
      if f.sourcePort.Some? {
        out := out + ["sport", f.sourcePort.value];
      }
      if f.destinationPort.Some? {
        out := out + ["dport", f.destinationPort.value];
      }
    }
  }

  method PushAddressClause(family: string, source: Option<string>, destination: Option<string>, args: seq<string>)
    returns (out: seq<string>)
    ensures out == args + AddressClause(family, source, destination)
  {
    out := args;
    if source.Some? {
      out := out + [family, "saddr", source.value];
    }
    if destination.Some? {
      out := out + [family, "daddr", destination.value];
    }
  }

  method PushInterfaceClause(f: Fields, args: seq<string>) returns (out: seq<string>)
    ensures out == args + InterfaceClause(f)
  {
    out := args;
    if f.inInterface.Some? || f.outInterface.Some? {
      out := out + ["meta"];
      if f.inInterface.Some? {
        out := out + ["iifname", f.inInterface.value];
      }
      if f.outInterface.Some? {
        out := out + ["oifname", f.outInterface.value];
      }
    }
  }

  /** The second half of `build`: the mark, the free-form matches, the
      verdict or DNAT target, and the comment. */
  method PushTailClauses(f: Fields, matchArgs: seq<string>) returns (args: seq<string>)
    requires matchArgs == MatchArgs(f) && |matchArgs| > 0
    ensures Args(f) == Ok(args)
  {
    var tail := ["meta", "mark", "set", DfwMark];
    ghost var extra: seq<string> := if f.matches.Some? then [f.matches.value] else [];
    if f.matches.Some? {
      tail := tail + [f.matches.value];
    }
    assert tail == MarkClause + extra;
    ghost var withAction := tail + ActionClause(f);
    if f.verdict.Some? {
      tail := tail + [RuleVerdictName(f.verdict.value)];
    } else if f.dnat.Some? {
      tail := tail + ["dnat", f.dnat.value];
    }
    assert tail == withAction;
    ghost var note: seq<string> := if f.comment.Some? then [CommentText(f.comment.value)] else [];
    if f.comment.Some? {
      tail := tail + [CommentText(f.comment.value)];
    }
    assert tail == Trailer(f);
    args := matchArgs + tail;
  }

  // ---------------------------------------------------------------------
  // Properties of the rendering

  /** The match part is empty exactly when no criterion is set. */
  lemma MatchArgsEmptyIff(r: Fields)
    ensures |MatchArgs(r)| == 0 <==> !HasMatchCriterion(r)
  {
  }

  /** `build` fails exactly when no port, IPv4/IPv6 address or interface is
      set; free-form matches, a verdict, a DNAT target or a comment do not
      count. */
  lemma RenderFailsIffNoCriterion(r: Fields)
    ensures Render(r).Err? <==> !HasMatchCriterion(r)
    ensures Render(r).Err? ==> Render(r).error == NoMatchCriterion
  {
    MatchArgsEmptyIff(r);
  }

  /** A protocol without any port contributes nothing to the rule. */
  lemma ProtocolNeedsPort(r: Fields, p: string)
    requires r.sourcePort.None? && r.destinationPort.None?
    ensures Render(r.(protocol := Some(p))) == Render(r)
  {
  }

  /** A port match starts the rule with its protocol, `tcp` when none is
      given, followed by `sport`/`dport` in that order. */
  lemma PortMatchLeads(r: Fields)
    requires r.sourcePort.Some? || r.destinationPort.Some?
    ensures Args(r).Ok?
    ensures Args(r).value[0] == if r.protocol.Some? then r.protocol.value else "tcp"
    ensures r.sourcePort.Some? ==> Args(r).value[1..3] == ["sport", r.sourcePort.value]
    ensures r.sourcePort.None? ==> Args(r).value[1..3] == ["dport", r.destinationPort.value]
  {
    var p := PortClause(r);
    var lead := if r.sourcePort.Some? then ["sport", r.sourcePort.value] else ["dport", r.destinationPort.value];
    assert p[..3] == [r.protocol.UnwrapOr("tcp")] + lead;
    var m := MatchArgs(r);
    assert m[..|p|] == p;
    var a := Args(r).value;
    assert a == m + Trailer(r);
    LeadingSlice(a, m, 3);
    LeadingSlice(m, p, 3);
  }

  /** Two sequences that share a prefix agree on its first `n` elements. */
  lemma LeadingSlice(a: seq<string>, m: seq<string>, n: int)
    requires m <= a && 0 <= n <= |m|
    ensures a[..n] == m[..n]
  {
  }

  /** The mark follows the match clauses directly, and everything after it
      is the free-form matches, then the action, then the comment. */
  lemma MarkFollowsMatches(r: Fields)
    requires HasMatchCriterion(r)
    ensures Args(r).Ok?
    ensures var a := Args(r).value; var n := |MatchArgs(r)|;
      a[..n] == MatchArgs(r) && a[n..n + 4] == ["meta", "mark", "set", "0xdf"]
  {
    MatchArgsEmptyIff(r);
    var a := Args(r).value;
    var n := |MatchArgs(r)|;
    var t := Trailer(r);
    assert a == MatchArgs(r) + t;
    assert t[..4] == MarkClause;
    assert a[..n] == MatchArgs(r);
    assert a[n..n + 4] == t[..4];
  }

  /** One `meta` keyword introduces both interface names. */
  lemma InterfacesShareMeta(r: Fields)
    requires r.inInterface.Some? && r.outInterface.Some?
    ensures InterfaceClause(r) == ["meta", "iifname", r.inInterface.value, "oifname", r.outInterface.value]
    ensures MatchArgs(r)[|MatchArgs(r)| - 5..] == InterfaceClause(r)
  {
  }

  /** With a verdict, the DNAT target is never rendered; without one, the
      DNAT target is. */
  lemma VerdictSuppressesDnat(r: Fields, d: string)
    ensures r.verdict.Some? ==> Render(r.(dnat := Some(d))) == Render(r.(dnat := None))
    ensures r.verdict.None? && HasMatchCriterion(r) && r.comment.None? ==>
      var a := Args(r.(dnat := Some(d))).value; a[|a| - 2..] == ["dnat", d]
  {
  }

  /** A comment is always the last piece, quoted. */
  lemma CommentIsLast(r: Fields)
    requires HasMatchCriterion(r) && r.comment.Some?
    ensures Args(r).Ok? && Args(r).value[|Args(r).value| - 1] == "comment \"" + r.comment.value + "\""
  {
  }
}
