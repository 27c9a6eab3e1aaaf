/**
 Inline text of `cli/cmd/run_transcript.go`: the escapes of `markdownInline`, against a reader of
 backslash escapes and character references (CommonMark 0.31, sections 2.4 and 2.5).
 */
module Inline {
  import opened Wrappers
  import Transcript

  predicate Special(c: char) {
    || c == '\\' || c == '`' || c == '*' || c == '_' || c == '[' || c == ']' || c == '(' || c == ')' || c == '|' || c == '#'
  }

  /** What one character is replaced by. */
  function EscapeChar(c: char): string {
    if c == '<' then "&lt;"
    else if c == '>' then "&gt;"
    else if Special(c) then ['\\', c]
    else [c]
  }

  function Escape(s: string): string {
    if s == "" then "" else EscapeChar(s[0]) + Escape(s[1..])
  }

  /** `markdownInline`. */
  function MarkdownInline(value: string): string {
    Escape(Transcript.SanitizeLine(value))
  }

  // ---- The reader ----

  predicate Alphanumeric(c: char) {
    '0' <= c <= '9' || 'A' <= c <= 'Z' || 'a' <= c <= 'z'
  }

  predicate Punctuation(c: char) {
    '!' <= c <= '/' || ':' <= c <= '@' || '[' <= c <= '`' || '{' <= c <= '~'
  }

  /** The character references: the HTML table of names, and what a numeric reference stands for. */
  datatype References = References(named: map<string, string>, numeric: string -> Option<string>) {
    /** Every expansion is shorter than its reference, as in the HTML table. */
    ghost predicate Lawful() {
      && (forall n <- named :: |named[n]| < |n| + 2)
      && "lt" in named && named["lt"] == "<" && "gt" in named && named["gt"] == ">"
    }
  }

  function NameLength(s: string): (n: nat)
    ensures n <= |s| && (forall i | 0 <= i < n :: Alphanumeric(s[i])) && (n < |s| ==> !Alphanumeric(s[n]))
  {
    if s != "" && Alphanumeric(s[0]) then 1 + NameLength(s[1..]) else 0
  }

  /** The name of a named reference that starts after an ampersand. */
  function NamedAt(r: References, s: string): Option<string> {
    var n := NameLength(s);
    if n < |s| && s[n] == ';' && s[..n] in r.named then Some(s[..n]) else None
  }

  /** The digits of a numeric reference that starts after an ampersand. */
  function NumericAt(r: References, s: string): Option<string> {
    if s == "" || s[0] != '#' then None
    else
      var n := NameLength(s[1..]);
      if n + 1 < |s| && s[n + 1] == ';' && r.numeric(s[1..n + 1]).Some? then Some(s[1..n + 1]) else None
  }

  /** Reading text: backslash escapes and references are replaced, everything else stands for itself. */
  function Read(r: References, t: string): string {
    if t == "" then ""
    else if t[0] == '\\' && |t| > 1 && Punctuation(t[1]) then [t[1]] + Read(r, t[2..])
    else if t[0] == '&' && NamedAt(r, t[1..]).Some? then
      var name := NamedAt(r, t[1..]).value;
      r.named[name] + Read(r, t[|name| + 2..])
    else if t[0] == '&' && NumericAt(r, t[1..]).Some? then
      var digits := NumericAt(r, t[1..]).value;
      r.numeric(digits).value + Read(r, t[|digits| + 3..])
    else [t[0]] + Read(r, t[1..])
  }

  /**
   What CommonMark gives a meaning to inside a line: code spans, emphasis, links, autolinks and raw HTML (sections 6.1 to 6.6),
   the table bar, and the heading mark. References are the matter of HasReference.
   */
  const ACTIVE := "\\`*_[]()|#<>"

  /** Every active character of the text stands behind a backslash that escapes it. */
  predicate Inert(t: string) {
    t == ""
    || (t[0] == '\\' && |t| > 1 && Punctuation(t[1]) && Inert(t[2..]))
    || (t[0] !in ACTIVE && Inert(t[1..]))
  }

  /** Escaped text opens no code span, emphasis, link, tag or cell. */
  lemma {:induction false} EscapedIsInert(s: string)
    ensures Inert(Escape(s))
  {
    if s != "" {
      EscapedIsInert(s[1..]);
      CharIsInert(s[0], Escape(s[1..]));
    }
  }

  lemma PlainIsInert(c: char, rest: string)
    requires Inert(rest) && c !in ACTIVE
    ensures Inert([c] + rest)
  {
    assert ([c] + rest)[1..] == rest;
  }

  /** A reference to a bracket is plain text. */
  lemma ReferenceIsInert(a: char, rest: string)
    requires Inert(rest) && a !in ACTIVE
    ensures Inert(['&', a, 't', ';'] + rest)
  {
    PlainIsInert(';', rest);
    PlainIsInert('t', [';'] + rest);
    PlainIsInert(a, ['t'] + ([';'] + rest));
    PlainIsInert('&', [a] + (['t'] + ([';'] + rest)));
    assert ['&', a, 't', ';'] + rest == ['&'] + ([a] + (['t'] + ([';'] + rest)));
  }

  lemma CharIsInert(c: char, rest: string)
    requires Inert(rest)
    ensures Inert(EscapeChar(c) + rest)
  {
    var t := EscapeChar(c) + rest;
    if c == '<' {
      ReferenceIsInert('l', rest);
    } else if c == '>' {
      ReferenceIsInert('g', rest);
    } else if Special(c) {
      assert t[0] == '\\' && t[1] == c && t[2..] == rest;
    } else {
      PlainIsInert(c, rest);
    }
  }

  /** The text itself holds a named character reference. */
  predicate HasReference(r: References, s: string) {
    s != "" && ((s[0] == '&' && NamedAt(r, s[1..]).Some?) || HasReference(r, s[1..]))
  }

  predicate Name(s: string) {
    forall i | 0 <= i < |s| :: Alphanumeric(s[i])
  }

  lemma EscapeFirst(c: char, rest: string)
    ensures Escape([c] + rest) == EscapeChar(c) + Escape(rest)
  {
    assert ([c] + rest)[1..] == rest;
  }

  lemma Shift(s: string, rest: string)
    requires s != ""
    ensures s + rest == [s[0]] + (s[1..] + rest)
  {
  }

  lemma {:induction false} EscapeName(name: string, rest: string)
    requires Name(name)
    ensures Escape(name + rest) == name + Escape(rest)
  {
    if name == "" {
      assert name + rest == rest && name + Escape(rest) == Escape(rest);
    } else {
      Shift(name, rest);
      EscapeFirst(name[0], name[1..] + rest);
      EscapeName(name[1..], rest);
      Shift(name, Escape(rest));
    }
  }

  lemma {:induction false} NameEnds(name: string, rest: string)
    requires Name(name) && (rest == "" || !Alphanumeric(rest[0]))
    ensures NameLength(name + rest) == |name|
  {
    if name == "" {
      assert name + rest == rest;
    } else {
      var t := name + rest;
      assert t[0] == name[0] && t[1..] == name[1..] + rest;
      NameEnds(name[1..], rest);
    }
  }

  /** Escaping keeps the class of the first character: only a semicolon gives a semicolon, only a name character gives one. */
  lemma FirstSurvives(rest: string)
    ensures rest == "" <==> Escape(rest) == ""
    ensures rest != "" ==> (Alphanumeric(Escape(rest)[0]) <==> Alphanumeric(rest[0])) && (Escape(rest)[0] == ';' <==> rest[0] == ';')
  {
    if rest != "" { assert Escape(rest)[0] == EscapeChar(rest[0])[0]; }
  }

  /** A named reference survives escaping, and escaping makes no new one. */
  lemma NamedSurvives(r: References, s: string)
    ensures NamedAt(r, Escape(s)) == NamedAt(r, s)
    ensures Escape(s) == s[..NameLength(s)] + Escape(s[NameLength(s)..])
  {
    var n := NameLength(s);
    var name, rest := s[..n], s[n..];
    assert s == name + rest;
    EscapeName(name, rest);
    FirstSurvives(rest);
    NameEnds(name, Escape(rest));
    var t := Escape(s);
    assert t[..n] == name && t[n..] == Escape(rest);
    if n < |s| { assert t[n] == Escape(rest)[0] && s[n] == rest[0]; }
  }

  lemma NoNumeric(r: References, s: string)
    ensures NumericAt(r, Escape(s)).None?
  {
    if s != "" { assert Escape(s)[0] == EscapeChar(s[0])[0]; }
  }

  lemma ReadBackslash(r: References, c: char, rest: string)
    requires Punctuation(c)
    ensures Read(r, ['\\', c] + rest) == [c] + Read(r, rest)
  {
    var t := ['\\', c] + rest;
    assert t[1] == c && t[2..] == rest;
  }

  lemma ReadPlain(r: References, c: char, rest: string)
    requires c != '\\' && c != '&'
    ensures Read(r, [c] + rest) == [c] + Read(r, rest)
  {
    assert ([c] + rest)[1..] == rest;
  }

  lemma ReadEscapedChar(r: References, c: char, rest: string)
    requires r.Lawful() && c != '&'
    ensures Read(r, EscapeChar(c) + rest) == [c] + Read(r, rest)
  {
    if c == '<' {
      ReadWritten(r, "lt", EscapeChar(c), rest);
    } else if c == '>' {
      ReadWritten(r, "gt", EscapeChar(c), rest);
    } else if Special(c) {
      ReadBackslash(r, c, rest);
    } else {
      ReadPlain(r, c, rest);
    }
  }

  lemma Regroup(a: string, b: string, c: string, d: string)
    ensures a + b + c + d == a + (b + (c + d))
  {
  }

  lemma ReadWritten(r: References, name: string, written: string, rest: string)
    requires Name(name) && name in r.named && written == "&" + name + ";"
    ensures Read(r, written + rest) == r.named[name] + Read(r, rest)
  {
    Regroup("&", name, ";", rest);
    ReadReference(r, name, rest);
  }

  lemma ReadReference(r: References, name: string, rest: string)
    requires Name(name) && name in r.named
    ensures Read(r, "&" + (name + (";" + rest))) == r.named[name] + Read(r, rest)
  {
    var body := name + (";" + rest);
    var t := "&" + body;
    NameEnds(name, ";" + rest);
    assert t[1..] == body && body[..|name|] == name && body[|name|] == ';';
    assert t[|name| + 2..] == rest;
  }

  lemma AmpersandStays(s: string)
    requires s != "" && s[0] == '&'
    ensures Escape(s) == ['&'] + Escape(s[1..]) && Escape(s)[1..] == Escape(s[1..])
  {
  }

  /** An ampersand that starts no named reference stands for itself. */
  lemma ReadAmpersand(r: References, s: string)
    requires s != "" && s[0] == '&' && NamedAt(r, s[1..]).None?
    ensures Read(r, Escape(s)) == ['&'] + Read(r, Escape(s[1..]))
  {
    AmpersandStays(s);
    NamedSurvives(r, s[1..]);
    NoNumeric(r, s[1..]);
  }

  /** Reading the escaped text never makes it longer, and gives it back exactly when it holds no named reference. */
  lemma {:induction false} InlineRoundTrip(r: References, s: string)
    requires r.Lawful()
    ensures |Read(r, Escape(s))| <= |s|
    ensures Read(r, Escape(s)) == s <==> !HasReference(r, s)
    ensures HasReference(r, s) ==> |Read(r, Escape(s))| < |s|
    decreases |s|
  {
    if s != "" {
      if s[0] != '&' {
        ReadEscapedChar(r, s[0], Escape(s[1..]));
        InlineRoundTrip(r, s[1..]);
        assert s == [s[0]] + s[1..];
      } else {
        NamedSurvives(r, s[1..]);
        if NamedAt(r, s[1..]).Some? {
          ReferenceShrinks(r, s);
        } else {
          ReadAmpersand(r, s);
          InlineRoundTrip(r, s[1..]);
          assert s == [s[0]] + s[1..];
        }
      }
    }
  }

  /** The text `&amp;` reads as `&`. */
  lemma AmpersandExample(r: References)
    requires r.Lawful() && "amp" in r.named
    ensures HasReference(r, "&amp;") && Read(r, Escape("&amp;")) != "&amp;"
  {
    assert "&amp;"[1..] == "amp" + (";" + "");
    NameEnds("amp", ";" + "");
    assert NamedAt(r, "&amp;"[1..]) == Some("amp");
    InlineRoundTrip(r, "&amp;");
  }

  /** Printed inline text is one line, and reads as the sanitized value exactly if that holds no named reference. */
  lemma InlineReadsBack(r: References, value: string)
    requires r.Lawful()
    ensures OneLine(MarkdownInline(value)) && Inert(MarkdownInline(value))
    ensures Read(r, MarkdownInline(value)) == Transcript.SanitizeLine(value) <==> !HasReference(r, Transcript.SanitizeLine(value))
  {
    InlineRoundTrip(r, Transcript.SanitizeLine(value));
    EscapedIsInert(Transcript.SanitizeLine(value));
    SanitizedIsOneLine(value);
    EscapedIsOneLine(Transcript.SanitizeLine(value));
  }

  /** No control character, and so no line end. */
  predicate OneLine(s: string) {
    forall i | 0 <= i < |s| :: s[i] >= ' '
  }

  lemma {:induction false} SanitizedIsOneLine(s: string)
    ensures OneLine(Transcript.SanitizeLine(s))
  {
    if s != "" { SanitizedIsOneLine(s[..|s| - 1]); }
  }

  lemma {:induction false} EscapedIsOneLine(s: string)
    requires OneLine(s)
    ensures OneLine(Escape(s))
  {
    if s != "" { EscapedIsOneLine(s[1..]); }
  }

  lemma {:induction false} ReferenceShrinks(r: References, s: string)
    requires r.Lawful() && s != "" && s[0] == '&' && NamedAt(r, s[1..]).Some?
    ensures |Read(r, Escape(s))| < |s|
    decreases |s|, 0
  {
    var name := NamedAt(r, s[1..]).value;
    AfterReference(r, s);
    InlineRoundTrip(r, s[|name| + 2..]);
  }

  lemma TailAt(s: string, n: nat)
    requires n < |s|
    ensures s[n..] == [s[n]] + s[n + 1..]
  {
  }

  lemma NameFound(r: References, body: string)
    requires NamedAt(r, body).Some?
    ensures var n := NameLength(body);
      NamedAt(r, body) == Some(body[..n]) && n < |body| && body[n..] == [';'] + body[n + 1..]
  {
    TailAt(body, NameLength(body));
  }

  /** What follows the reference in the escaped text is the escaped rest. */
  lemma AfterReference(r: References, s: string)
    requires s != "" && s[0] == '&' && NamedAt(r, s[1..]).Some?
    ensures var name := NamedAt(r, s[1..]).value; var t := Escape(s);
      && |name| + 2 <= |s| && |name| + 2 <= |t| && t[0] == '&' && NamedAt(r, t[1..]) == Some(name)
      && t[|name| + 2..] == Escape(s[|name| + 2..])
  {
    var body := s[1..];
    var n := NameLength(body);
    var rest := body[n + 1..];
    NameFound(r, body);
    NamedSurvives(r, body);
    AmpersandStays(s);
    AfterSemicolon(rest);
    Assemble(Escape(s), Escape(body), body[..n], Escape(body[n..]), Escape(rest));
    assert rest == s[n + 2..];
  }

  lemma Assemble(t: string, u: string, name: string, tail: string, rest: string)
    requires t == ['&'] + u && u == name + tail && tail == [';'] + rest
    ensures t[0] == '&' && t[1..] == u && |t| >= |name| + 2 && t[|name| + 2..] == rest
  {
    assert u[|name| + 1..] == tail[1..] == rest;
  }

  lemma AfterSemicolon(rest: string)
    ensures Escape([';'] + rest) == [';'] + Escape(rest)
  {
    assert ([';'] + rest)[1..] == rest;
  }
}
