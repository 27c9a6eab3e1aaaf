/**
 Markdown output of `cli/cmd/run_transcript.go` as a printer, against the readers of
 CommonMark 0.31: fenced code blocks (section 4.5), backslash escapes (section 2.4) and
 character references (section 2.5).
 */
module Transcript {
  import opened Wrappers

  const TICK := '`'
  const NEWLINE := '\n'

  // ---- Sanitizing ----

  /** `output.SanitizeControl`: of the control characters only tab and newline stay. */
  function SanitizeControl(s: string): string {
    if s == "" then ""
    else
      var c := s[|s| - 1];
      SanitizeControl(s[..|s| - 1]) + if c == '\t' || c == '\n' || (c >= ' ' && c != '\U{007F}') then [c] else []
  }

  /** `output.SanitizeLine`: tabs and line ends become spaces, other control characters go. */
  function SanitizeLine(s: string): string {
    if s == "" then ""
    else
      var c := s[|s| - 1];
      SanitizeLine(s[..|s| - 1])
        + if c == '\t' || c == '\n' || c == '\r' then [' '] else if c >= ' ' && c != '\U{007F}' then [c] else []
  }

  /** C0 control characters and DEL. */
  predicate Control(c: char) {
    c < ' ' || c == '\U{007F}'
  }

  /** Every control character but tab and newline goes, and everything else stays, each as often as it came. */
  lemma {:induction false} ControlsGo(s: string, c: char)
    ensures multiset(SanitizeControl(s))[c] == if Control(c) && c !in "\t\n" then 0 else multiset(s)[c]
  {
    if s != "" {
      ControlsGo(s[..|s| - 1], c);
      assert s == s[..|s| - 1] + [s[|s| - 1]];
    }
  }

  /** Text is cleaned piece by piece, so what stays keeps its order. */
  lemma {:induction false} SanitizeJoins(a: string, b: string)
    ensures SanitizeControl(a + b) == SanitizeControl(a) + SanitizeControl(b)
    ensures SanitizeLine(a + b) == SanitizeLine(a) + SanitizeLine(b)
  {
    if b == "" {
      assert a + b == a;
    } else {
      assert (a + b)[..|a + b| - 1] == a + b[..|b| - 1];
      SanitizeJoins(a, b[..|b| - 1]);
    }
  }

  /** On one line, tabs and line ends become spaces and the other control characters go; with SanitizeJoins this is every text. */
  lemma LineOf(c: char)
    ensures SanitizeLine([c]) == if c in "\t\n\r" then " " else if Control(c) then "" else [c]
  {
    assert [c][..0] == "";
  }

  function TrimNewlines(s: string): string {
    if s != "" && s[|s| - 1] == NEWLINE then TrimNewlines(s[..|s| - 1]) else s
  }

  // ---- Runs of backticks ----

  /** The run of backticks that ends the text. */
  function LastRun(s: string): nat {
    if s == "" || s[|s| - 1] != TICK then 0 else 1 + LastRun(s[..|s| - 1])
  }

  function Max(a: nat, b: nat): nat {
    if a < b then b else a
  }

  /** The longest run. */
  function MaxRun(s: string): nat {
    if s == "" then 0 else Max(MaxRun(s[..|s| - 1]), LastRun(s))
  }

  /** `maxBacktickRun`. */
  method MaxBacktickRun(value: string) returns (maxRun: nat)
    ensures maxRun == MaxRun(value)
  {
    maxRun := 0;
    var current := 0;
    for i := 0 to |value|
      invariant maxRun == MaxRun(value[..i]) && current == LastRun(value[..i])
    {
      assert value[..i + 1][..i] == value[..i];
      if value[i] == TICK {
        current := current + 1;
        if current > maxRun { maxRun := current; }
        continue;
      }
      current := 0;
    }
    assert value[..|value|] == value;
  }

  /** Backticks from `i` up to `j`. */
  predicate Ticks(s: string, i: nat, j: nat) {
    i <= j <= |s| && forall k | i <= k < j :: s[k] == TICK
  }

  lemma {:induction false} LastRunBounds(s: string, i: nat)
    requires Ticks(s, i, |s|)
    ensures |s| - i <= LastRun(s)
  {
    if i < |s| {
      assert s[|s| - 1] == TICK;
      LastRunBounds(s[..|s| - 1], i);
    }
  }

  /** No stretch of backticks is longer. */
  lemma {:induction false} MaxRunBounds(s: string, i: nat, j: nat)
    requires Ticks(s, i, j)
    ensures j - i <= MaxRun(s)
    decreases |s|
  {
    if j < |s| {
      MaxRunBounds(s[..|s| - 1], i, j);
    } else if s != "" {
      LastRunBounds(s, i);
    }
  }

  lemma {:induction false} LastRunReached(s: string)
    ensures LastRun(s) <= |s| && Ticks(s, |s| - LastRun(s), |s|)
  {
    if s != "" { LastRunReached(s[..|s| - 1]); }
  }

  /** One stretch is that long. */
  lemma {:induction false} MaxRunReached(s: string) returns (i: nat, j: nat)
    ensures Ticks(s, i, j) && j - i == MaxRun(s)
  {
    if s == "" {
      i, j := 0, 0;
    } else if LastRun(s) >= MaxRun(s[..|s| - 1]) {
      LastRunReached(s);
      i, j := |s| - LastRun(s), |s|;
    } else {
      i, j := MaxRunReached(s[..|s| - 1]);
    }
  }

  // ---- Lines ----

  /** The lines of a text, without their line ends. */
  function Split(s: string): (r: seq<string>)
    ensures r != []
  {
    if s == "" then [""]
    else
      var r := Split(s[..|s| - 1]);
      if s[|s| - 1] == NEWLINE then r + [""] else r[..|r| - 1] + [r[|r| - 1] + [s[|s| - 1]]]
  }

  function Join(lines: seq<string>): string {
    if lines == [] then "" else if |lines| == 1 then lines[0] else Join(lines[..|lines| - 1]) + [NEWLINE] + lines[|lines| - 1]
  }

  lemma {:induction false} JoinSplit(s: string)
    ensures Join(Split(s)) == s
  {
    if s != "" {
      var init := s[..|s| - 1];
      var r := Split(init);
      JoinSplit(init);
      assert s == init + [s[|s| - 1]];
      if s[|s| - 1] == NEWLINE {
        assert (r + [""])[..|r|] == r;
      } else if |r| > 1 {
        var t := r[..|r| - 1] + [r[|r| - 1] + [s[|s| - 1]]];
        assert t[..|t| - 1] == r[..|r| - 1];
      }
    }
  }

  lemma SplitNext(s: string, c: char)
    ensures Split(s + [c]) == var r := Split(s); if c == NEWLINE then r + [""] else r[..|r| - 1] + [r[|r| - 1] + [c]]
  {
    assert (s + [c])[..|s|] == s;
  }

  lemma Append(p: seq<string>, q: seq<string>, c: char)
    requires q != []
    ensures p + q + [""] == p + (q + [""])
    ensures (p + q)[..|p + q| - 1] + [(p + q)[|p + q| - 1] + [c]] == p + (q[..|q| - 1] + [q[|q| - 1] + [c]])
  {
  }

  lemma {:induction false} SplitJoins(a: string, b: string)
    ensures Split(a + [NEWLINE] + b) == Split(a) + Split(b)
  {
    if b == "" {
      assert a + [NEWLINE] + b == a + [NEWLINE];
      SplitNext(a, NEWLINE);
    } else {
      var init, c := b[..|b| - 1], b[|b| - 1];
      var x := a + [NEWLINE] + init;
      assert a + [NEWLINE] + b == x + [c];
      assert b == init + [c];
      SplitJoins(a, init);
      SplitNext(x, c);
      SplitNext(init, c);
      Append(Split(a), Split(init), c);
    }
  }

  lemma {:induction false} SplitPlain(s: string)
    requires NEWLINE !in s
    ensures Split(s) == [s]
  {
    if s != "" {
      SplitPlain(s[..|s| - 1]);
      assert s == s[..|s| - 1] + [s[|s| - 1]];
    }
  }

  /** No line has a longer run than the text. */
  lemma {:induction false} LineRuns(s: string)
    ensures LastRun(Split(s)[|Split(s)| - 1]) == LastRun(s)
    ensures forall l <- Split(s) :: MaxRun(l) <= MaxRun(s)
  {
    if s != "" {
      var init, c := s[..|s| - 1], s[|s| - 1];
      LineRuns(init);
      var r := Split(init);
      if c != NEWLINE {
        var last := r[|r| - 1];
        assert (last + [c])[..|last|] == last;
        assert MaxRun(last + [c]) <= MaxRun(s);
      }
    }
  }

  // ---- Reading a fenced code block ----

  function Leading(s: string, c: char): (n: nat)
    ensures n <= |s| && (forall i | 0 <= i < n :: s[i] == c) && (n < |s| ==> s[n] != c)
  {
    if s != "" && s[0] == c then 1 + Leading(s[1..], c) else 0
  }

  datatype Opening = Opening(indent: nat, mark: char, length: nat, info: string)

  /** An opening fence: up to three spaces, three or more backticks or tildes, and an info string. */
  function OpeningFence(line: string): Option<Opening> {
    var indent := Leading(line, ' ');
    var body := line[indent..];
    if indent > 3 || body == "" || (body[0] != TICK && body[0] != '~') then None
    else
      var n := Leading(body, body[0]);
      var info := body[n..];
      if n < 3 || (body[0] == TICK && TICK in info) then None else Some(Opening(indent, body[0], n, info))
  }

  /** A closing fence: up to three spaces, a run of the same mark that is at least as long, and only white space. */
  predicate ClosingFence(line: string, o: Opening) {
    var indent := Leading(line, ' ');
    var n := Leading(line[indent..], o.mark);
    indent <= 3 && n >= o.length && forall i | indent + n <= i < |line| :: line[i] == ' ' || line[i] == '\t'
  }

  /** Removes up to `indent` leading spaces. */
  function Outdent(line: string, indent: nat): string {
    if indent > 0 && line != "" && line[0] == ' ' then Outdent(line[1..], indent - 1) else line
  }

  datatype Block = Block(content: seq<string>, info: string, closed: bool, rest: seq<string>)

  /** Content lines up to the closing fence or the end of the document. */
  function ReadContent(lines: seq<string>, o: Opening): Block {
    if lines == [] then Block([], o.info, false, [])
    else if ClosingFence(lines[0], o) then Block([], o.info, true, lines[1..])
    else
      var b := ReadContent(lines[1..], o);
      b.(content := [Outdent(lines[0], o.indent)] + b.content)
  }

  /** A document that starts with a fenced block; its last line end starts no further line. */
  function ReadFenced(document: string): Option<Block> {
    var split := Split(document);
    var lines := if split[|split| - 1] == "" then split[..|split| - 1] else split;
    if lines == [] || OpeningFence(lines[0]).None? then None
    else Some(ReadContent(lines[1..], OpeningFence(lines[0]).value))
  }

  // ---- Printing it ----

  function Repeat(c: char, n: nat): (s: string)
    ensures |s| == n && forall i | 0 <= i < n :: s[i] == c
  {
    seq(n, _ => c)
  }

  function Fence(value: string): string {
    Repeat(TICK, Max(MaxRun(value) + 1, 3))
  }

  /** The fence is three backticks, or one longer than some run in the text. */
  lemma FenceIsShort(text: string) returns (i: nat, j: nat)
    ensures |Fence(text)| == 3 || (Ticks(text, i, j) && |Fence(text)| == j - i + 1)
  {
    i, j := MaxRunReached(text);
  }

  function Clean(value: string): string {
    TrimNewlines(SanitizeControl(value))
  }

  /** Cleaned text has no other line end than newline, so Split sees all its lines. */
  lemma CleanHasNoReturn(value: string)
    ensures '\r' !in Clean(value)
  {
    SanitizedHasNoReturn(value);
    TrimmedIsPrefix(SanitizeControl(value));
  }

  /** Cleaning takes only line ends from the end of the sanitized text, and all of them. */
  lemma CleanEndsInText(value: string)
    ensures Clean(value) <= SanitizeControl(value) && (Clean(value) != "" ==> Clean(value)[|Clean(value)| - 1] != NEWLINE)
    ensures forall i | |Clean(value)| <= i < |SanitizeControl(value)| :: SanitizeControl(value)[i] == NEWLINE
  {
    TrimmedAtEnd(SanitizeControl(value));
  }

  lemma {:induction false} TrimmedAtEnd(s: string)
    ensures var t := TrimNewlines(s);
      t <= s && (t != "" ==> t[|t| - 1] != NEWLINE) && forall i | |t| <= i < |s| :: s[i] == NEWLINE
  {
    if s != "" && s[|s| - 1] == NEWLINE { TrimmedAtEnd(s[..|s| - 1]); }
  }

  lemma {:induction false} SanitizedHasNoReturn(s: string)
    ensures '\r' !in SanitizeControl(s)
  {
    if s != "" { SanitizedHasNoReturn(s[..|s| - 1]); }
  }

  lemma {:induction false} TrimmedIsPrefix(s: string)
    ensures TrimNewlines(s) <= s
  {
    if s != "" && s[|s| - 1] == NEWLINE { TrimmedIsPrefix(s[..|s| - 1]); }
  }

  function Printed(text: string): string {
    Fence(text) + [NEWLINE] + text + [NEWLINE] + Fence(text) + [NEWLINE]
  }

  /** `markdownFence`. */
  method MarkdownFence(value: string) returns (r: string)
    ensures r == if Clean(value) == "" then "" else Printed(Clean(value))
  {
    var text := TrimNewlines(SanitizeControl(value));
    if text == "" { return ""; }
    var run := MaxBacktickRun(text);
    var fence := Repeat(TICK, run + 1);
    if |fence| < 3 { fence := "```"; }
    assert fence == Fence(text);
    r := fence + [NEWLINE] + text + [NEWLINE] + fence + [NEWLINE];
  }

  lemma ClosingNeedsRun(line: string, o: Opening)
    requires o.mark == TICK && ClosingFence(line, o)
    ensures MaxRun(line) >= o.length
  {
    var i := Leading(line, ' ');
    var n := Leading(line[i..], TICK);
    assert forall k | i <= k < i + n :: line[k] == line[i..][k - i];
    MaxRunBounds(line, i, i + n);
  }

  lemma {:induction false} ReadsUpTo(lines: seq<string>, o: Opening, close: string)
    requires o.indent == 0 && ClosingFence(close, o) && forall l <- lines :: !ClosingFence(l, o)
    ensures ReadContent(lines + [close], o) == Block(lines, o.info, true, [])
  {
    if lines == [] {
      assert ([] + [close])[0] == close && ([] + [close])[1..] == [];
    } else {
      assert (lines + [close])[1..] == lines[1..] + [close];
      ReadsUpTo(lines[1..], o, close);
    }
  }

  lemma FenceReads(fence: string)
    requires |fence| >= 3 && Ticks(fence, 0, |fence|)
    ensures OpeningFence(fence) == Some(Opening(0, TICK, |fence|, ""))
    ensures ClosingFence(fence, Opening(0, TICK, |fence|, ""))
  {
    assert fence[0] == TICK && Leading(fence, ' ') == 0 && fence[0..] == fence;
    assert Leading(fence, TICK) == |fence|;
    assert fence[|fence|..] == "";
  }

  lemma PrintedLines(text: string)
    ensures Split(Printed(text)) == [Fence(text)] + Split(text) + [Fence(text)] + [""]
  {
    var fence := Fence(text);
    SplitPlain(fence);
    SplitJoins(fence, text);
    SplitJoins(fence + [NEWLINE] + text, fence);
    SplitJoins(fence + [NEWLINE] + text + [NEWLINE] + fence, "");
    assert Printed(text) == fence + [NEWLINE] + text + [NEWLINE] + fence + [NEWLINE] + "";
  }

  lemma TextDoesNotClose(text: string, l: string)
    requires l in Split(text)
    ensures !ClosingFence(l, Opening(0, TICK, |Fence(text)|, ""))
  {
    var o := Opening(0, TICK, |Fence(text)|, "");
    LineRuns(text);
    if ClosingFence(l, o) { ClosingNeedsRun(l, o); }
  }

  lemma ReadsPrinted(document: string, fence: string, lines: seq<string>)
    requires |fence| >= 3 && Ticks(fence, 0, |fence|)
    requires Split(document) == [fence] + lines + [fence] + [""]
    requires forall l <- lines :: !ClosingFence(l, Opening(0, TICK, |fence|, ""))
    ensures ReadFenced(document) == Some(Block(lines, "", true, []))
  {
    var split, all := Split(document), [fence] + lines + [fence];
    assert split[|split| - 1] == "" && split[..|split| - 1] == all;
    assert all[0] == fence && all[1..] == lines + [fence];
    FenceReads(fence);
    ReadsUpTo(lines, Opening(0, TICK, |fence|, ""), fence);
  }

  /** Whatever the text, the printed block reads as exactly one fenced block with that text. */
  lemma FenceRoundTrip(text: string)
    ensures ReadFenced(Printed(text)) == Some(Block(Split(text), "", true, [])) && Join(Split(text)) == text
  {
    PrintedLines(text);
    forall l <- Split(text) ensures !ClosingFence(l, Opening(0, TICK, |Fence(text)|, "")) { TextDoesNotClose(text, l); }
    ReadsPrinted(Printed(text), Fence(text), Split(text));
    JoinSplit(text);
  }
}
