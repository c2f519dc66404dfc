/** The iptables rule builder: a table, a chain and optional match options,
    rendered into the argument string of one iptables rule. */
module IptRule {
  import opened Wrappers
  import Text

  /** The fields of a rule under construction. */
  datatype Fields = Fields(
    table: string,
    chain: string,
    source: Option<string>,
    destination: Option<string>,
    inInterface: Option<string>,
    outInterface: Option<string>,
    notInInterface: bool,
    notOutInterface: bool,
    protocol: Option<string>,
    sourcePort: Option<string>,
    destinationPort: Option<string>,
    filter: Option<string>,
    jump: Option<string>,
    comment: Option<string>)

  /** A rendered rule: where it goes and its argument string. */
  datatype BuiltRule = BuiltRule(table: string, chain: string, rule: string)

  /** `Rule::new(table, chain)`. */
  function Fresh(table: string, chain: string): Fields {
    Fields(table, chain, None, None, None, None, false, false, None, None, None, None, None, None)
  }

  function Opt(key: string, value: Option<string>): seq<string> {
    match value
    case Some(v) => [key, v]
    case None => []
  }

  /** An interface option, negated with `!` when asked to. */
  function InterfaceOpt(key: string, value: Option<string>, negate: bool): seq<string> {
    match value
    case Some(v) => (if negate then ["!"] else []) + [key, v]
    case None => []
  }

  /** The protocol option: the given protocol, else `tcp` when a port needs one. */
  function ProtocolOpt(r: Fields): seq<string> {
    if r.protocol.Some? then ["-p", r.protocol.value]
    else if r.sourcePort.Some? || r.destinationPort.Some? then ["-p", "tcp"]
    else []
  }

  /** All match options in rendering order. */
  function MatchOptions(r: Fields): seq<string> {
    Opt("-s", r.source) + Opt("-d", r.destination)
      + InterfaceOpt("-i", r.inInterface, r.notInInterface)
      + InterfaceOpt("-o", r.outInterface, r.notOutInterface)
      + ProtocolOpt(r) + Opt("--sport", r.sourcePort) + Opt("--dport", r.destinationPort)
      + (if r.filter.Some? then [r.filter.value] else [])
  }

  function CommentOpts(c: string): seq<string> {
    ["-m", "comment", "--comment", "\"" + c + "\""]
  }

  /** The arguments of the rendered rule. */
  function Args(r: Fields): Result<seq<string>> {
    var m := MatchOptions(r);
    if |m| == 0 then Err(NoMatchCriterion)
    else if r.jump.None? then Err(NoJump)
    else Ok(m + ["-j", r.jump.value] + (if r.comment.Some? then CommentOpts(r.comment.value) else []))
  }

  /** `build`. */
  function Render(r: Fields): Result<BuiltRule> {
    var args :- Args(r);
    Ok(BuiltRule(r.table, r.chain, Text.Join(args, " ")))
  }

  /** True when some match option is set. */
  predicate HasMatchOption(r: Fields) {
    r.source.Some? || r.destination.Some? || r.inInterface.Some? || r.outInterface.Some?
    || r.protocol.Some? || r.sourcePort.Some? || r.destinationPort.Some? || r.filter.Some?
  }

  /** The mutable rule the processors fill in with chained setters. */
  class Rule {
    var table: string
    var chain: string
    var source: Option<string>
    var destination: Option<string>
    var inInterface: Option<string>
    var outInterface: Option<string>
    var notInInterface: bool
    var notOutInterface: bool
    var protocol: Option<string>
    var sourcePort: Option<string>
    var destinationPort: Option<string>
    var filter: Option<string>
    var jump: Option<string>
    var comment: Option<string>

    function Snapshot(): Fields
      reads this
    {
      Fields(table, chain, source, destination, inInterface, outInterface, notInInterface, notOutInterface,
             protocol, sourcePort, destinationPort, filter, jump, comment)
    }

    /** `Rule::new`: the table and chain, no option and no negation. */
    constructor (table: string, chain: string)
      ensures Snapshot() == Fresh(table, chain)
    {
      this.table, this.chain := table, chain;
      source, destination, inInterface, outInterface := None, None, None, None;
      notInInterface, notOutInterface := false, false;
      protocol, sourcePort, destinationPort, filter, jump, comment := None, None, None, None, None, None;
    }

    /** A rule holding the given fields. */
    constructor Of(f: Fields)
      ensures Snapshot() == f
    {
      table, chain := f.table, f.chain;
      source, destination, inInterface, outInterface := f.source, f.destination, f.inInterface, f.outInterface;
      notInInterface, notOutInterface := f.notInInterface, f.notOutInterface;
      protocol, sourcePort, destinationPort := f.protocol, f.sourcePort, f.destinationPort;
      filter, jump, comment := f.filter, f.jump, f.comment;
    }

    /** `clone()`: an independent rule with the same fields. */
    method Clone() returns (c: Rule)
      ensures fresh(c) && c.Snapshot() == Snapshot()
    {
      c := new Rule.Of(Snapshot());
    }

    method SetSource(v: string)
      modifies this
      ensures Snapshot() == old(Snapshot()).(source := Some(v))
    {
      source := Some(v);
    }

    method SetDestination(v: string)
      modifies this
      ensures Snapshot() == old(Snapshot()).(destination := Some(v))
    {
      destination := Some(v);
    }

    method SetInInterface(v: string)
      modifies this
      ensures Snapshot() == old(Snapshot()).(inInterface := Some(v))
    {
      inInterface := Some(v);
    }

    method SetOutInterface(v: string)
      modifies this
      ensures Snapshot() == old(Snapshot()).(outInterface := Some(v))
    {
      outInterface := Some(v);
    }

    method SetNotInInterface(v: bool)
      modifies this
      ensures Snapshot() == old(Snapshot()).(notInInterface := v)
    {
      notInInterface := v;
    }

    method SetNotOutInterface(v: bool)
      modifies this
      ensures Snapshot() == old(Snapshot()).(notOutInterface := v)
    {
      notOutInterface := v;
    }

    method SetProtocol(v: string)
      modifies this
      ensures Snapshot() == old(Snapshot()).(protocol := Some(v))
    {
      protocol := Some(v);
    }

    method SetSourcePort(v: string)
      modifies this
      ensures Snapshot() == old(Snapshot()).(sourcePort := Some(v))
    {
      sourcePort := Some(v);
    }

    method SetDestinationPort(v: string)
      modifies this
      ensures Snapshot() == old(Snapshot()).(destinationPort := Some(v))
    {
      destinationPort := Some(v);
    }

    method SetFilter(v: string)
      modifies this
      ensures Snapshot() == old(Snapshot()).(filter := Some(v))
    {
      filter := Some(v);
    }

    method SetJump(v: string)
      modifies this
      ensures Snapshot() == old(Snapshot()).(jump := Some(v))
    {
      jump := Some(v);
    }

    method SetComment(v: string)
      modifies this
      ensures Snapshot() == old(Snapshot()).(comment := Some(v))
    {
      comment := Some(v);
    }

    /** `build`: pushes the options one by one; fails without a match
        option, then without a jump target. */
    method Build() returns (r: Result<BuiltRule>)
      ensures r == Render(Snapshot())
      ensures r.Ok? <==> HasMatchOption(Snapshot()) && jump.Some?
      ensures r.Ok? ==> r.value.table == table && r.value.chain == chain
    {
      var f := Snapshot();
      var args := PushMatchOptions(f);
      MatchOptionsEmptyIff(f);
      if |args| == 0 {
        return Err(NoMatchCriterion);
      }
      if f.jump.Some? {
        args := args + ["-j", f.jump.value];
      } else {
        return Err(NoJump);
      }
      ghost var withJump := args;
      if f.comment.Some? {
        args := args + ["-m", "comment", "--comment", "\"" + f.comment.value + "\""];
      }
      assert args == withJump + (if f.comment.Some? then CommentOpts(f.comment.value) else []);
      assert Args(f) == Ok(args);
      r := Ok(BuiltRule(f.table, f.chain, Text.Join(args, " ")));
    }
  }

  /** The match half of `build`. */
  method PushMatchOptions(f: Fields) returns (args: seq<string>)
    ensures args == MatchOptions(f)
  {
    args := PushOpt("-s", f.source, []);
    args := PushOpt("-d", f.destination, args);
    args := PushInterface("-i", f.inInterface, f.notInInterface, args);
    args := PushInterface("-o", f.outInterface, f.notOutInterface, args);
    ghost var a1 := args;
    args := PushProtocol(f, args);
    args := PushOpt("--sport", f.sourcePort, args);
    args := PushOpt("--dport", f.destinationPort, args);
    ghost var a2 := args;
    assert a2 == a1 + ProtocolOpt(f) + Opt("--sport", f.sourcePort) + Opt("--dport", f.destinationPort);
    if f.filter.Some? {
      args := args + [f.filter.value];
    }
    ghost var tail := if f.filter.Some? then [f.filter.value] else [];
    assert args == a2 + tail;
    assert a1 == Opt("-s", f.source) + Opt("-d", f.destination)
      + InterfaceOpt("-i", f.inInterface, f.notInInterface)
      + InterfaceOpt("-o", f.outInterface, f.notOutInterface);
  }

  method PushOpt(key: string, value: Option<string>, args: seq<string>) returns (out: seq<string>)
    ensures out == args + Opt(key, value)
  {
    out := args;
    if value.Some? {
      out := out + [key, value.value];
    }
  }

  method PushProtocol(f: Fields, args: seq<string>) returns (out: seq<string>)
    ensures out == args + ProtocolOpt(f)
  {
    out := args;
    if f.protocol.Some? {
      out := out + ["-p", f.protocol.value];
    } else if f.sourcePort.Some? || f.destinationPort.Some? {
      // a port needs a protocol; `tcp` when none was given
      out := out + ["-p", "tcp"];
    }
  }

  method PushInterface(key: string, value: Option<string>, negate: bool, args: seq<string>) returns (out: seq<string>)
    ensures out == args + InterfaceOpt(key, value, negate)
  {
    out := args;
    if value.Some? {
      if negate {
        out := out + ["!"];
      }
      out := out + [key, value.value];
    }
  }

  // ---------------------------------------------------------------------
  // Properties of the rendering

  lemma MatchOptionsEmptyIff(r: Fields)
    ensures |MatchOptions(r)| == 0 <==> !HasMatchOption(r)
  {
  }

  /** `build` fails with the match error when no match option is set, else
      with the jump error when no target is set, and succeeds otherwise,
      keeping the table and chain. */
  lemma RenderOutcome(r: Fields)
    ensures !HasMatchOption(r) ==> Render(r) == Err(NoMatchCriterion)
    ensures HasMatchOption(r) && r.jump.None? ==> Render(r) == Err(NoJump)
    ensures HasMatchOption(r) && r.jump.Some? ==>
      Render(r).Ok? && Render(r).value.table == r.table && Render(r).value.chain == r.chain
  {
    MatchOptionsEmptyIff(r);
  }

  /** `!` precedes an interface option exactly when that interface is set
      and its negation flag is on; a flag without an interface renders
      nothing. */
  lemma NegationOnlyWithInterface(key: string, value: Option<string>, negate: bool)
    requires key == "-i" || key == "-o"
    ensures var opt := InterfaceOpt(key, value, negate);
      (|opt| > 0 && opt[0] == "!") <==> value.Some? && negate
    ensures value.None? ==> InterfaceOpt(key, value, negate) == []
    ensures value.Some? && negate ==> InterfaceOpt(key, value, negate) == ["!", key, value.value]
    ensures value.Some? && !negate ==> InterfaceOpt(key, value, negate) == [key, value.value]
  {
  }

  /** A port without a protocol gets `-p tcp` just before the port options. */
  lemma TcpForPorts(r: Fields)
    requires r.protocol.None? && (r.sourcePort.Some? || r.destinationPort.Some?)
    ensures ProtocolOpt(r) == ["-p", "tcp"]
    ensures var pre := Opt("-s", r.source) + Opt("-d", r.destination)
      + InterfaceOpt("-i", r.inInterface, r.notInInterface) + InterfaceOpt("-o", r.outInterface, r.notOutInterface);
      MatchOptions(r)[|pre|..|pre| + 2] == ["-p", "tcp"]
  {
  }

  /** The jump follows all match options, and a comment comes last. */
  lemma JumpThenComment(r: Fields)
    requires HasMatchOption(r) && r.jump.Some?
    ensures var a := Args(r).value; var n := |MatchOptions(r)|;
      a[..n] == MatchOptions(r) && a[n..n + 2] == ["-j", r.jump.value]
      && (r.comment.Some? ==> a[n + 2..] == ["-m", "comment", "--comment", "\"" + r.comment.value + "\""])
      && (r.comment.None? ==> |a| == n + 2)
  {
    MatchOptionsEmptyIff(r);
  }
}
