/** The two iptables execution strategies that never touch the host: the
    dummy, which answers every call with a fixed "nothing happened", and
    the logger, which answers the same and records every call. The
    operations of the iptables interface are the constructors of `Op`. */
module IptExec {
  import opened Wrappers
  import Text

  /** The Rust `i32` of rule positions. */
  type I32 = x: int | -0x8000_0000 <= x < 0x8000_0000

  /** One call of the iptables interface, with its arguments. */
  datatype Op =
    | GetPolicy(table: string, chain: string)
    | SetPolicy(table: string, chain: string, policy: string)
    | Execute(table: string, command: string)
    | Exists(table: string, chain: string, rule: string)
    | ChainExists(table: string, chain: string)
    | Insert(table: string, chain: string, rule: string, position: I32)
    | InsertUnique(table: string, chain: string, rule: string, position: I32)
    | Replace(table: string, chain: string, rule: string, position: I32)
    | Append(table: string, chain: string, rule: string)
    | AppendUnique(table: string, chain: string, rule: string)
    | AppendReplace(table: string, chain: string, rule: string)
    | Delete(table: string, chain: string, rule: string)
    | DeleteAll(table: string, chain: string, rule: string)
    | List(table: string, chain: string)
    | ListTable(table: string)
    | ListChains(table: string)
    | NewChain(table: string, chain: string)
    | FlushChain(table: string, chain: string)
    | RenameChain(table: string, oldChain: string, newChain: string)
    | DeleteChain(table: string, chain: string)
    | FlushTable(table: string)

  /** The name of the interface method, as the logger records it. */
  function OpName(op: Op): string {
    match op
    case GetPolicy(_, _) => "get_policy"
    case SetPolicy(_, _, _) => "set_policy"
    case Execute(_, _) => "execute"
    case Exists(_, _, _) => "exists"
    case ChainExists(_, _) => "chain_exists"
    case Insert(_, _, _, _) => "insert"
    case InsertUnique(_, _, _, _) => "insert_unique"
    case Replace(_, _, _, _) => "replace"
    case Append(_, _, _) => "append"
    case AppendUnique(_, _, _) => "append_unique"
    case AppendReplace(_, _, _) => "append_replace"
    case Delete(_, _, _) => "delete"
    case DeleteAll(_, _, _) => "delete_all"
    case List(_, _) => "list"
    case ListTable(_) => "list_table"
    case ListChains(_) => "list_chains"
    case NewChain(_, _) => "new_chain"
    case FlushChain(_, _) => "flush_chain"
    case RenameChain(_, _, _) => "rename_chain"
    case DeleteChain(_, _) => "delete_chain"
    case FlushTable(_) => "flush_table"
  }

  /** The arguments in declaration order, a position as its decimal text. */
  function OpParams(op: Op): seq<string> {
    match op
    case GetPolicy(t, c) => [t, c]
    case SetPolicy(t, c, p) => [t, c, p]
    case Execute(t, cmd) => [t, cmd]
    case Exists(t, c, r) => [t, c, r]
    case ChainExists(t, c) => [t, c]
    case Insert(t, c, r, p) => [t, c, r, Text.IntToString(p)]
    case InsertUnique(t, c, r, p) => [t, c, r, Text.IntToString(p)]
    case Replace(t, c, r, p) => [t, c, r, Text.IntToString(p)]
    case Append(t, c, r) => [t, c, r]
    case AppendUnique(t, c, r) => [t, c, r]
    case AppendReplace(t, c, r) => [t, c, r]
    case Delete(t, c, r) => [t, c, r]
    case DeleteAll(t, c, r) => [t, c, r]
    case List(t, c) => [t, c]
    case ListTable(t) => [t]
    case ListChains(t) => [t]
    case NewChain(t, c) => [t, c]
    case FlushChain(t, c) => [t, c]
    case RenameChain(t, o, n) => [t, o, n]
    case DeleteChain(t, c) => [t, c]
    case FlushTable(t) => [t]
  }

  /** A raw Unix wait status, as `ExitStatus::from_raw` takes it. */
  datatype ExitStatus = ExitStatus(raw: int)

  /** The exit code, present only when the process exited normally (the
      low seven bits of the wait status are zero). */
  function ExitCode(s: ExitStatus): Option<int> {
    if s.raw % 128 == 0 then Some((s.raw / 256) % 256) else None
  }

  predicate Success(s: ExitStatus) {
    ExitCode(s) == Some(0)
  }

  datatype Output = Output(status: ExitStatus, stdout: seq<bv8>, stderr: seq<bv8>)

  /** What a call returns. */
  datatype Reply =
    | Text(text: string)
    | Flag(flag: bool)
    | Process(output: Output)
    | Lines(lines: seq<string>)

  /** The wait status both strategies report: killed by signal 9. */
  const KilledStatus: ExitStatus := ExitStatus(9)

  /** `IPTablesDummy`: the fixed answer to every call. */
  function DummyReply(op: Op): (r: Reply)
    ensures op.Execute? ==>
      r.Process? && !Success(r.output.status) && r.output.stdout == [] && r.output.stderr == []
    ensures op.GetPolicy? ==> r == Text("")
    ensures op.List? || op.ListTable? || op.ListChains? ==> r == Lines([])
    ensures !(op.Execute? || op.GetPolicy? || op.List? || op.ListTable? || op.ListChains?) ==> r == Flag(false)
  {
    match op
    case GetPolicy(_, _) => Text("")
    case Execute(_, _) => Process(Output(KilledStatus, [], []))
    case List(_, _) => Lines([])
    case ListTable(_) => Lines([])
    case ListChains(_) => Lines([])
    case _ => Flag(false)
  }

  /** The status the strategies report is a signal death, so it neither
      has an exit code nor counts as success. */
  lemma KilledStatusFails()
    ensures ExitCode(KilledStatus) == None && !Success(KilledStatus)
  {
  }

  /** The log entry of one call. */
  function LogEntry(op: Op): (string, string) {
    (OpName(op), Text.Join(OpParams(op), " "))
  }

  /** `IPTablesLogger`: answers like the dummy and appends one entry per
      call to its log. */
  class Logger {
    var logs: seq<(string, string)>

    /** `IPTablesLogger::new`: an empty log. */
    constructor ()
      ensures logs == []
    {
      logs := [];
    }

    /** `log`: appends the function name and the parameters joined by
        single spaces. */
    method Log(name: string, params: seq<string>)
      modifies this
      ensures logs == old(logs) + [(name, Text.Join(params, " "))]
    {
      logs := logs + [(name, Text.Join(params, " "))];
    }

    /** `logs()`: the entries in call order, unchanged. */
    method Logs() returns (entries: seq<(string, string)>)
      ensures entries == logs
    {
      entries := logs;
    }

    /** One interface method of the logger: log the call, then answer as
        the dummy does. */
    method Call(op: Op) returns (r: Reply)
      modifies this
      ensures logs == old(logs) + [LogEntry(op)]
      ensures r == DummyReply(op)
    {
      Log(OpName(op), OpParams(op));
      r := DummyReply(op);
    }
  }

  /** The three positional calls log the position after the rule as its
      signed decimal text, and the entry tells every position apart:
      moving a call to another position, negative ones included, changes
      its log entry. */
  lemma PositionLogged(op: Op, p: I32)
    requires op.Insert? || op.InsertUnique? || op.Replace?
    ensures LogEntry(op).1 == Text.Join([op.table, op.chain, op.rule], " ") + " " + Text.IntToString(op.position)
    ensures LogEntry(op.(position := p)) == LogEntry(op) <==> p == op.position
  {
    var prefix := Text.Join([op.table, op.chain, op.rule], " ") + " ";
    Text.JoinSnoc([op.table, op.chain, op.rule], Text.IntToString(op.position), " ");
    Text.JoinSnoc([op.table, op.chain, op.rule], Text.IntToString(p), " ");
    assert [op.table, op.chain, op.rule] + [Text.IntToString(op.position)] == OpParams(op);
    assert [op.table, op.chain, op.rule] + [Text.IntToString(p)] == OpParams(op.(position := p));
    if LogEntry(op.(position := p)) == LogEntry(op) {
      assert (prefix + Text.IntToString(p))[|prefix|..] == Text.IntToString(p);
      assert (prefix + Text.IntToString(op.position))[|prefix|..] == Text.IntToString(op.position);
      Text.IntToStringInjective(p, op.position);
    }
  }
}
