/** Go's string order and white space, as far as the command line client relies on them. */
module Text {

  /** The order of Go's `<` on strings. */
  predicate Less(a: string, b: string) {
    b != "" && (a == "" || a[0] < b[0] || (a[0] == b[0] && Less(a[1..], b[1..])))
  }

  lemma {:induction false} LessIsTotal(a: string, b: string)
    ensures !(Less(a, b) && Less(b, a))
    ensures a == b || Less(a, b) || Less(b, a)
  {
    if a == "" || b == "" {
    } else {
      LessIsTotal(a[1..], b[1..]);
      assert a == [a[0]] + a[1..] && b == [b[0]] + b[1..];
    }
  }

  lemma {:induction false} LessIsTransitive(a: string, b: string, c: string)
    requires Less(a, b) && Less(b, c)
    ensures Less(a, c)
  {
    if a != "" && a[0] == b[0] == c[0] {
      LessIsTransitive(a[1..], b[1..], c[1..]);
    }
  }

  /** The smaller string ends first, or has the smaller character at the first difference. */
  lemma {:induction false} LessIsFirstDifference(a: string, b: string)
    ensures Less(a, b) <==> exists k :: 0 <= k <= |a| && k < |b| && a[..k] == b[..k] && (k == |a| || a[k] < b[k])
  {
    if Less(a, b) {
      if a == "" || a[0] < b[0] {
        assert a[..0] == b[..0];
      } else {
        LessIsFirstDifference(a[1..], b[1..]);
        var k :| 0 <= k <= |a[1..]| && k < |b[1..]| && a[1..][..k] == b[1..][..k] && (k == |a[1..]| || a[1..][k] < b[1..][k]);
        assert a[..k + 1] == [a[0]] + a[1..][..k] && b[..k + 1] == [b[0]] + b[1..][..k];
      }
    }
    if k :| 0 <= k <= |a| && k < |b| && a[..k] == b[..k] && (k == |a| || a[k] < b[k]) {
      if k > 0 {
        LessIsFirstDifference(a[1..], b[1..]);
        assert a[..k][0] == b[..k][0];
        assert a[1..][..k - 1] == a[..k][1..] && b[1..][..k - 1] == b[..k][1..];
      }
    }
  }

  /** `unicode.IsSpace`. */
  predicate IsSpace(c: char) {
    || '\t' <= c <= '\r' || c == ' ' || c == '\U{0085}' || c == '\U{00A0}' || c == '\U{1680}'
    || '\U{2000}' <= c <= '\U{200A}' || c == '\U{2028}' || c == '\U{2029}' || c == '\U{202F}' || c == '\U{205F}' || c == '\U{3000}'
  }

  function TrimLeft(s: string): string {
    if s != "" && IsSpace(s[0]) then TrimLeft(s[1..]) else s
  }

  /** `strings.TrimRightFunc(s, unicode.IsSpace)`. */
  function TrimRight(s: string): string {
    if s != "" && IsSpace(s[|s| - 1]) then TrimRight(s[..|s| - 1]) else s
  }

  /** `strings.TrimSpace`. */
  function Trim(s: string): string {
    TrimRight(TrimLeft(s))
  }

  /** The characters with the Unicode property White_Space. */
  lemma SpacesAreWhite(c: char)
    ensures IsSpace(c) <==>
      || c in {'\t', '\n', '\U{000B}', '\U{000C}', '\r', ' ', '\U{0085}', '\U{00A0}', '\U{1680}'}
      || c in {'\U{2000}', '\U{2001}', '\U{2002}', '\U{2003}', '\U{2004}', '\U{2005}', '\U{2006}', '\U{2007}', '\U{2008}'}
      || c in {'\U{2009}', '\U{200A}', '\U{2028}', '\U{2029}', '\U{202F}', '\U{205F}', '\U{3000}'}
  {
  }

  lemma {:induction false} TrimLeftSplits(s: string) returns (n: nat)
    ensures n <= |s| && TrimLeft(s) == s[n..] && (n < |s| ==> !IsSpace(s[n])) && forall i | 0 <= i < n :: IsSpace(s[i])
  {
    n := 0;
    if s != "" && IsSpace(s[0]) {
      n := TrimLeftSplits(s[1..]);
      n := n + 1;
      assert forall i | 1 <= i < n :: s[i] == s[1..][i - 1];
    }
  }

  lemma {:induction false} TrimRightSplits(s: string) returns (n: nat)
    ensures n <= |s| && TrimRight(s) == s[..n] && (n > 0 ==> !IsSpace(s[n - 1])) && forall i | n <= i < |s| :: IsSpace(s[i])
  {
    n := |s|;
    if s != "" && IsSpace(s[|s| - 1]) { n := TrimRightSplits(s[..|s| - 1]); }
  }

  /** Trimming takes the white space from both ends and nothing else. */
  lemma TrimSplits(s: string) returns (i: nat, j: nat)
    ensures i <= j <= |s| && Trim(s) == s[i..j] && (i < j ==> !IsSpace(s[i]) && !IsSpace(s[j - 1]))
    ensures (forall k | 0 <= k < i :: IsSpace(s[k])) && forall k | j <= k < |s| :: IsSpace(s[k])
  {
    i := TrimLeftSplits(s);
    var n := TrimRightSplits(s[i..]);
    j := i + n;
    assert forall k | j <= k < |s| :: s[k] == s[i..][k - i];
  }

  /**
   `strings.ToLower`, as far as comparisons with ASCII words can see it: besides the capital
   letters, only the dotted capital I and the Kelvin sign lower to ASCII letters.
   */
  function Lower(s: string): (r: string)
    ensures |r| == |s|
  {
    seq(|s|, i requires 0 <= i < |s| =>
      if 'A' <= s[i] <= 'Z' then s[i] - 'A' + 'a' else if s[i] == '\U{0130}' then 'i' else if s[i] == '\U{212A}' then 'k' else s[i])
  }

  /** Capital letters get their small ones, character by character, and other ASCII characters stay. */
  lemma LowerLetters(s: string, i: nat)
    requires i < |s| && s[i] < '\U{0080}'
    ensures Lower(s)[i] == if s[i] in "ABCDEFGHIJKLMNOPQRSTUVWXYZ" then s[i] + 32 as char else s[i]
  {
  }

  lemma {:induction false} TrimLeftSkips(before: string, s: string)
    requires forall c <- before :: IsSpace(c)
    ensures TrimLeft(before + s) == TrimLeft(s)
  {
    if before == "" {
      assert before + s == s;
    } else {
      assert (before + s)[1..] == before[1..] + s;
      TrimLeftSkips(before[1..], s);
    }
  }

  lemma {:induction false} TrimRightSkips(s: string, after: string)
    requires forall c <- after :: IsSpace(c)
    ensures TrimRight(s + after) == TrimRight(s)
  {
    if after == "" {
      assert s + after == s;
    } else {
      assert (s + after)[..|s + after| - 1] == s + after[..|after| - 1];
      TrimRightSkips(s, after[..|after| - 1]);
    }
  }

  /** Nothing but white space, or text that keeps what follows it. */
  lemma {:induction false} TrimLeftKeeps(s: string, after: string)
    ensures TrimLeft(s + after) == if TrimLeft(s) == "" then TrimLeft(after) else TrimLeft(s) + after
  {
    if s == "" {
      assert s + after == after;
    } else {
      assert (s + after)[1..] == s[1..] + after;
      TrimLeftKeeps(s[1..], after);
    }
  }

  lemma TrimIgnoresPadding(before: string, s: string, after: string)
    requires (forall c <- before :: IsSpace(c)) && (forall c <- after :: IsSpace(c))
    ensures Trim(before + s + after) == Trim(s)
  {
    assert before + s + after == before + (s + after);
    TrimLeftSkips(before, s + after);
    TrimLeftKeeps(s, after);
    TrimRightSkips(TrimLeft(s), after);
    TrimLeftSkips(after, "");
    assert after + "" == after;
  }

  lemma {:induction false} LowerTwice(s: string)
    ensures Lower(Lower(s)) == Lower(s)
  {
  }

  lemma {:induction false} TrimLeftLowers(s: string)
    ensures TrimLeft(Lower(s)) == Lower(TrimLeft(s))
  {
    if s != "" && IsSpace(s[0]) {
      assert Lower(s)[1..] == Lower(s[1..]);
      TrimLeftLowers(s[1..]);
    }
  }

  lemma {:induction false} TrimRightLowers(s: string)
    ensures TrimRight(Lower(s)) == Lower(TrimRight(s))
  {
    if s != "" && IsSpace(s[|s| - 1]) {
      assert Lower(s)[..|s| - 1] == Lower(s[..|s| - 1]);
      TrimRightLowers(s[..|s| - 1]);
    }
  }

  lemma TrimLowers(s: string)
    ensures Trim(Lower(s)) == Lower(Trim(s))
  {
    TrimLeftLowers(s);
    TrimRightLowers(TrimLeft(s));
  }

  // ---- Decimal numbers ----

  function Digit(d: nat): (c: char)
    requires d < 10
  {
    '0' + d as char
  }

  predicate IsDigit(c: char) {
    '0' <= c <= '9'
  }

  /** `%d` of a non-negative number. */
  function Decimal(n: nat): (s: string)
    ensures s != "" && forall i | 0 <= i < |s| :: IsDigit(s[i])
  {
    if n < 10 then [Digit(n)] else Decimal(n / 10) + [Digit(n % 10)]
  }

  /** The number a text of digits stands for. */
  function ValueOf(s: string): nat
    requires forall i | 0 <= i < |s| :: IsDigit(s[i])
  {
    if s == "" then 0
    else
      assert IsDigit(s[|s| - 1]);
      10 * ValueOf(s[..|s| - 1]) + (s[|s| - 1] - '0') as nat
  }

  lemma {:induction false} DecimalReads(n: nat)
    ensures ValueOf(Decimal(n)) == n && (n > 0 ==> Decimal(n)[0] != '0')
  {
    if n >= 10 {
      DecimalReads(n / 10);
      assert Decimal(n)[..|Decimal(n)| - 1] == Decimal(n / 10);
    } else {
      assert Decimal(n)[..0] == "";
    }
  }

  lemma {:induction false} DecimalIsInjective(m: nat, n: nat)
    requires Decimal(m) == Decimal(n)
    ensures m == n
  {
    var s := Decimal(m);
    assert m >= 10 ==> s[|s| - 1] == Digit(m % 10) && s[..|s| - 1] == Decimal(m / 10);
    assert n >= 10 ==> s[|s| - 1] == Digit(n % 10) && s[..|s| - 1] == Decimal(n / 10);
    if m >= 10 && n >= 10 {
      DecimalIsInjective(m / 10, n / 10);
    } else {
      assert m < 10 ==> |s| == 1;
    }
  }

  /** A longer text that ends in no digit faces a digit of the other number. */
  lemma LongerTextDiffers(a: string, m: nat, b: string, n: nat)
    requires |a| < |b| && !IsDigit(b[|b| - 1])
    ensures a + Decimal(m) != b + Decimal(n)
  {
    var s, t, k := a + Decimal(m), b + Decimal(n), |b| - 1;
    assert t[k] == b[k];
    if k < |s| { assert s[k] == Decimal(m)[k - |a|]; }
  }

  /** What precedes a number is found again, because it ends in a character that is no digit. */
  lemma NumberedIsInjective(a: string, m: nat, b: string, n: nat)
    requires a != "" && b != "" && !IsDigit(a[|a| - 1]) && !IsDigit(b[|b| - 1])
    requires a + Decimal(m) == b + Decimal(n)
    ensures a == b && m == n
  {
    if |a| < |b| {
      LongerTextDiffers(a, m, b, n);
    } else if |b| < |a| {
      LongerTextDiffers(b, n, a, m);
    } else {
      var s := a + Decimal(m);
      assert s[..|a|] == a && s[..|b|] == b && s[|a|..] == Decimal(m) && s[|b|..] == Decimal(n);
      DecimalIsInjective(m, n);
    }
  }
}
