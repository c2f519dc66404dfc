/** The release helper that extracts the current release's notes from the
    changelog: the lines of the first `## ` section, without the heading,
    without the blank lines that follow it, and each right-stripped. */
module Changelog {

  /** Where the line machine stands. */
  datatype State = Initial | BeforeYielding | Yielding | End

  /** The characters Python's `str.isspace` accepts: Rust's
      `char::is_whitespace` set (`Text.IsSpace`) plus the four separators
      U+001C to U+001F, so the two are kept apart. */
  predicate IsSpace(c: char) {
    c == ' ' || '\t' <= c <= '\r' || '\U{1c}' <= c <= '\U{1f}' || c == '\U{85}' || c == '\U{a0}'
    || c == '\U{1680}' || '\U{2000}' <= c <= '\U{200a}' || c == '\U{2028}' || c == '\U{2029}'
    || c == '\U{202f}' || c == '\U{205f}' || c == '\U{3000}'
  }

  /** `str.rstrip()`: the longest prefix that does not end in whitespace;
      what is cut off is all whitespace. */
  function RStrip(s: string): (r: string)
    ensures r <= s
    ensures |r| == 0 || !IsSpace(r[|r| - 1])
    ensures forall i :: |r| <= i < |s| ==> IsSpace(s[i])
  {
    if |s| > 0 && IsSpace(s[|s| - 1]) then RStrip(s[..|s| - 1]) else s
  }

  /** A second-level heading, tested on the right-stripped line. */
  predicate IsHeading(line: string) {
    "## " <= line
  }

  /** `line.strip()` is non-empty: the line has a non-space character. */
  predicate HasContent(line: string) {
    exists i :: 0 <= i < |line| && !IsSpace(line[i])
  }

  /** One line through the machine (the `End` state stops reading before
      this is reached): the next state and what the line yields. */
  function Step(state: State, line: string): (State, seq<string>) {
    match state
    case Initial => (if IsHeading(line) then BeforeYielding else Initial, [])
    case BeforeYielding => if HasContent(line) then (Yielding, [line]) else (BeforeYielding, [])
    case Yielding => if IsHeading(line) then (End, []) else (Yielding, [line])
    case End => (End, [])
  }

  /** What the machine yields from the given state on the given lines. */
  function Run(state: State, lines: seq<string>): seq<string>
    decreases lines
  {
    if |lines| == 0 || state == End then []
    else
      var (next, out) := Step(state, RStrip(lines[0]));
      out + Run(next, lines[1..])
  }

  /** The state the machine is in after the given lines. */
  function Final(state: State, lines: seq<string>): State
    decreases lines
  {
    if |lines| == 0 || state == End then state
    else Final(Step(state, RStrip(lines[0])).0, lines[1..])
  }

  /** `get_current_changelog`, as a value: the machine from its initial
      state over all the lines of the file. */
  function CurrentChangelog(lines: seq<string>): seq<string> {
    Run(Initial, lines)
  }

  /** Every line right-stripped. */
  function Stripped(lines: seq<string>): (r: seq<string>)
    ensures |r| == |lines| && forall i :: 0 <= i < |lines| ==> r[i] == RStrip(lines[i])
    decreases lines
  {
    if |lines| == 0 then [] else [RStrip(lines[0])] + Stripped(lines[1..])
  }

  /** `get_current_changelog` over the file's lines (as `readlines` gives
      them), stopping at the first line read in the `End` state. */
  method GetCurrentChangelog(lines: seq<string>) returns (out: seq<string>)
    ensures out == CurrentChangelog(lines)
  {
    var state := Initial;
    out := [];
    var i := 0;
    while i < |lines|
      invariant 0 <= i <= |lines|
      invariant out + Run(state, lines[i..]) == CurrentChangelog(lines)
    {
      var line := RStrip(lines[i]);
      if state == End {
        break;
      }
      RunFirst(state, lines[i..]);
      assert lines[i..][0] == lines[i] && lines[i..][1..] == lines[i + 1..];
      ghost var before := out;
      ghost var step := Step(state, line);
      if state == Initial {
        if IsHeading(line) {
          state := BeforeYielding;
        }
      } else if state == BeforeYielding {
        if HasContent(line) {
          state := Yielding;
          out := out + [line];
        }
      } else {
        if IsHeading(line) {
          state := End;
        } else {
          out := out + [line];
        }
      }
      assert state == step.0 && out == before + step.1;
      AppendAssoc(before, step.1, Run(state, lines[i + 1..]));
      i := i + 1;
    }
    assert out + [] == out;
  }

  // ---------------------------------------------------------------------
  // What the machine yields

  /** Running over two pieces runs over the first, then over the second
      from wherever the first left the machine. */
  lemma {:induction false} RunAppend(state: State, a: seq<string>, b: seq<string>)
    ensures Run(state, a + b) == Run(state, a) + Run(Final(state, a), b)
    ensures Final(state, a + b) == Final(Final(state, a), b)
    decreases a
  {
    if |a| == 0 || state == End {
      assert a + b == b || state == End;
    } else {
      assert (a + b)[0] == a[0] && (a + b)[1..] == a[1..] + b;
      RunAppend(Step(state, RStrip(a[0])).0, a[1..], b);
    }
  }

  /** The first line yields what its step yields, then the machine goes
      on over the others. */
  lemma RunFirst(state: State, lines: seq<string>)
    requires state != End && |lines| > 0
    ensures Run(state, lines) == Step(state, RStrip(lines[0])).1 + Run(Step(state, RStrip(lines[0])).0, lines[1..])
  {
  }

  /** One line yields what its step yields and moves the machine on. */
  lemma RunOne(state: State, line: string)
    requires state != End
    ensures Run(state, [line]) == Step(state, RStrip(line)).1
    ensures Final(state, [line]) == Step(state, RStrip(line)).0
  {
    assert [line][1..] == [];
  }

  /** Before the first heading nothing is yielded. */
  lemma {:induction false} NoHeadingYieldsNothing(lines: seq<string>)
    requires forall i :: 0 <= i < |lines| ==> !IsHeading(RStrip(lines[i]))
    ensures Run(Initial, lines) == [] && Final(Initial, lines) == Initial
  {
    if |lines| > 0 {
      NoHeadingYieldsNothing(lines[1..]);
    }
  }

  /** Blank lines after the heading are skipped. */
  lemma {:induction false} BlanksSkipped(lines: seq<string>)
    requires forall i :: 0 <= i < |lines| ==> !HasContent(RStrip(lines[i]))
    ensures Run(BeforeYielding, lines) == [] && Final(BeforeYielding, lines) == BeforeYielding
  {
    if |lines| > 0 {
      BlanksSkipped(lines[1..]);
    }
  }

  /** While yielding, every line up to the next heading is yielded,
      blank or not, right-stripped. */
  lemma {:induction false} BodyYielded(lines: seq<string>)
    requires forall i :: 0 <= i < |lines| ==> !IsHeading(RStrip(lines[i]))
    ensures Run(Yielding, lines) == Stripped(lines) && Final(Yielding, lines) == Yielding
  {
    if |lines| > 0 {
      BodyYielded(lines[1..]);
    }
  }

  /** A changelog without a `## ` line yields nothing. */
  lemma NoHeadingNoChangelog(lines: seq<string>)
    requires forall i :: 0 <= i < |lines| ==> !IsHeading(RStrip(lines[i]))
    ensures CurrentChangelog(lines) == []
  {
    NoHeadingYieldsNothing(lines);
  }

  /** The current section: whatever precedes the first heading, the
      heading itself and the blank lines after it are dropped; the first
      line with content (even another heading) and every line after it up
      to the next heading are yielded right-stripped; that heading and
      everything after it are dropped. */
  lemma CurrentSection(before: seq<string>, heading: string, blanks: seq<string>,
                       first: string, body: seq<string>, next: string, rest: seq<string>)
    requires forall i :: 0 <= i < |before| ==> !IsHeading(RStrip(before[i]))
    requires IsHeading(RStrip(heading))
    requires forall i :: 0 <= i < |blanks| ==> !HasContent(RStrip(blanks[i]))
    requires HasContent(RStrip(first))
    requires forall i :: 0 <= i < |body| ==> !IsHeading(RStrip(body[i]))
    requires IsHeading(RStrip(next))
    ensures CurrentChangelog(before + [heading] + blanks + [first] + body + [next] + rest)
      == Stripped([first] + body)
  {
    var head := before + [heading] + blanks;
    Regroup(head, first, body, next, rest);
    OpenedSection(before, heading, blanks);
    SectionYielded(first, body);
    ClosingHeading(next, rest);
    ThreeParts(head, [first] + body, [next] + rest);
  }

  /** A head that opens a section and yields nothing, a section that is
      yielded whole and a tail that closes it: the run yields the section. */
  lemma ThreeParts(head: seq<string>, section: seq<string>, tail: seq<string>)
    requires Run(Initial, head) == [] && Final(Initial, head) == BeforeYielding
    requires Final(BeforeYielding, section) == Yielding && Run(Yielding, tail) == []
    ensures Run(Initial, head + (section + tail)) == Run(BeforeYielding, section)
  {
    RunAppend(Initial, head, section + tail);
    RunAppend(BeforeYielding, section, tail);
    assert Run(BeforeYielding, section) + [] == Run(BeforeYielding, section);
  }

  /** The last section, with no heading after it, is yielded to the end. */
  lemma LastSection(before: seq<string>, heading: string, blanks: seq<string>,
                    first: string, body: seq<string>)
    requires forall i :: 0 <= i < |before| ==> !IsHeading(RStrip(before[i]))
    requires IsHeading(RStrip(heading))
    requires forall i :: 0 <= i < |blanks| ==> !HasContent(RStrip(blanks[i]))
    requires HasContent(RStrip(first))
    requires forall i :: 0 <= i < |body| ==> !IsHeading(RStrip(body[i]))
    ensures CurrentChangelog(before + [heading] + blanks + [first] + body) == Stripped([first] + body)
  {
    var head := before + [heading] + blanks;
    var section := [first] + body;
    assert head + [first] + body == head + section by {
      AppendAssoc(head, [first], body);
    }
    OpenedSection(before, heading, blanks);
    SectionYielded(first, body);
    RunAppend(Initial, head, section);
  }

  /** From the first line with content to the next heading, every line is
      yielded right-stripped. */
  lemma SectionYielded(first: string, body: seq<string>)
    requires HasContent(RStrip(first))
    requires forall i :: 0 <= i < |body| ==> !IsHeading(RStrip(body[i]))
    ensures Run(BeforeYielding, [first] + body) == Stripped([first] + body)
    ensures Final(BeforeYielding, [first] + body) == Yielding
  {
    RunOne(BeforeYielding, first);
    BodyYielded(body);
    RunAppend(BeforeYielding, [first], body);
    assert ([first] + body)[1..] == body;
  }

  /** Concatenation regrouped. Kept as a lemma of its own so that the
      callers above do not carry sequence associativity in their context. */
  lemma AppendAssoc(a: seq<string>, b: seq<string>, c: seq<string>)
    ensures a + b + c == a + (b + c)
  {
  }

  lemma Regroup(head: seq<string>, first: string, body: seq<string>, next: string, rest: seq<string>)
    ensures head + [first] + body + [next] + rest == head + (([first] + body) + ([next] + rest))
  {
    AppendAssoc(head + [first] + body, [next], rest);
    AppendAssoc(head + [first], body, [next] + rest);
    AppendAssoc(head, [first], body + ([next] + rest));
    AppendAssoc([first], body, [next] + rest);
  }

  /** A closing heading yields nothing, and neither does anything after it. */
  lemma ClosingHeading(next: string, rest: seq<string>)
    requires IsHeading(RStrip(next))
    ensures Run(Yielding, [next] + rest) == []
  {
    RunOne(Yielding, next);
    RunAppend(Yielding, [next], rest);
  }

  /** A heading followed only by blank lines yields nothing. */
  lemma EmptySection(before: seq<string>, heading: string, blanks: seq<string>)
    requires forall i :: 0 <= i < |before| ==> !IsHeading(RStrip(before[i]))
    requires IsHeading(RStrip(heading))
    requires forall i :: 0 <= i < |blanks| ==> !HasContent(RStrip(blanks[i]))
    ensures CurrentChangelog(before + [heading] + blanks) == []
  {
    OpenedSection(before, heading, blanks);
  }

  /** Up to the first line with content, nothing is yielded and the
      machine waits for content. */
  lemma OpenedSection(before: seq<string>, heading: string, blanks: seq<string>)
    requires forall i :: 0 <= i < |before| ==> !IsHeading(RStrip(before[i]))
    requires IsHeading(RStrip(heading))
    requires forall i :: 0 <= i < |blanks| ==> !HasContent(RStrip(blanks[i]))
    ensures Run(Initial, before + [heading] + blanks) == []
    ensures Final(Initial, before + [heading] + blanks) == BeforeYielding
  {
    NoHeadingYieldsNothing(before);
    RunOne(Initial, heading);
    BlanksSkipped(blanks);
    RunAppend(Initial, before, [heading]);
    RunAppend(Initial, before + [heading], blanks);
  }

  /** Every yielded line is right-stripped already. */
  lemma {:induction false} YieldedStripped(state: State, lines: seq<string>)
    ensures forall i :: 0 <= i < |Run(state, lines)| ==>
      RStrip(Run(state, lines)[i]) == Run(state, lines)[i]
    decreases lines
  {
    if |lines| > 0 && state != End {
      var (next, out) := Step(state, RStrip(lines[0]));
      YieldedStripped(next, lines[1..]);
      RStripIdempotent(RStrip(lines[0]));
    }
  }

  /** Right-stripping a right-stripped line changes nothing. */
  lemma RStripIdempotent(s: string)
    ensures RStrip(RStrip(s)) == RStrip(s)
  {
  }
}
