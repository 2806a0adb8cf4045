/**
 * The string operations the scripts rely on: Python's whitespace and word
 * character classes, `str.strip()`, `str.splitlines()`, `" ".join(...)`
 * and `str()` of an integer.
 */
module Text {
  import opened Wrappers

  /** The characters `str.isspace()` accepts; the `\s` class and `str.strip()` use the same set. */
  predicate IsSpace(c: char) {
    c == ' ' || ('\t' <= c <= '\r') || ('\U{1C}' <= c <= '\U{1F}')
    || c == '\U{85}' || c == '\U{A0}' || c == '\U{1680}' || ('\U{2000}' <= c <= '\U{200A}')
    || c == '\U{2028}' || c == '\U{2029}' || c == '\U{202F}' || c == '\U{205F}' || c == '\U{3000}'
  }

  /** The ASCII part of the `\w` class: letters, digits and the underscore. */
  predicate IsWordChar(c: char) {
    ('a' <= c <= 'z') || ('A' <= c <= 'Z') || ('0' <= c <= '9') || c == '_'
  }

  /** The line boundaries of `str.splitlines()` (`\r\n` is a boundary of its own, see SplitLines). */
  predicate IsLineBreak(c: char) {
    ('\n' <= c <= '\r') || ('\U{1C}' <= c <= '\U{1E}') || c == '\U{85}' || c == '\U{2028}' || c == '\U{2029}'
  }

  predicate IsBlank(s: string) {
    forall i :: 0 <= i < |s| ==> IsSpace(s[i])
  }

  predicate NoLineBreak(s: string) {
    forall i :: 0 <= i < |s| ==> !IsLineBreak(s[i])
  }

  predicate StartsWith(s: string, prefix: string) {
    |prefix| <= |s| && s[..|prefix|] == prefix
  }

  /** `s.lstrip()`: what is left of `s` after its leading whitespace. */
  function LStrip(s: string): (r: string)
    ensures |r| <= |s|
    ensures r == [] || !IsSpace(r[0])
  {
    if s != [] && IsSpace(s[0]) then LStrip(s[1..]) else s
  }

  /** `s.rstrip()`: what is left of `s` after its trailing whitespace. */
  function RStrip(s: string): (r: string)
    ensures |r| <= |s|
    ensures r == [] || !IsSpace(r[|r| - 1])
  {
    if s != [] && IsSpace(s[|s| - 1]) then RStrip(s[..|s| - 1]) else s
  }

  /** `s.strip()`: `s` without its leading and trailing whitespace (StripFrame says what was removed). */
  function Strip(s: string): (r: string)
    ensures r == [] || (!IsSpace(r[0]) && !IsSpace(r[|r| - 1]))
  {
    var t := LStrip(s);
    var r := RStrip(t);
    assert r != [] ==> r[0] == t[0] by {
      if r != [] { RStripPrefix(t); }
    }
    r
  }

  /** A space in front of blank text leaves it blank. */
  lemma {:induction false} BlankCons(c: char, rest: string)
    requires IsSpace(c) && IsBlank(rest)
    ensures IsBlank([c] + rest)
  {
    var s := [c] + rest;
    forall i | 0 <= i < |s| ensures IsSpace(s[i]) {
      if i > 0 { assert s[i] == rest[i - 1]; }
    }
  }

  /** lstrip removes a blank prefix. */
  lemma {:induction false} LStripFrame(s: string) returns (a: string)
    ensures IsBlank(a) && s == a + LStrip(s)
    decreases |s|
  {
    if s != [] && IsSpace(s[0]) {
      var rest := LStripFrame(s[1..]);
      a := [s[0]] + rest;
      BlankCons(s[0], rest);
      assert s == [s[0]] + s[1..];
    } else {
      a := [];
    }
  }

  /** rstrip removes a blank suffix. */
  lemma {:induction false} RStripFrame(s: string) returns (b: string)
    ensures IsBlank(b) && s == RStrip(s) + b
    decreases |s|
  {
    if s != [] && IsSpace(s[|s| - 1]) {
      var rest := RStripFrame(s[..|s| - 1]);
      b := rest + [s[|s| - 1]];
      assert s == s[..|s| - 1] + [s[|s| - 1]];
    } else {
      b := [];
    }
  }

  lemma {:induction false} RStripPrefix(s: string)
    ensures RStrip(s) == s[..|RStrip(s)|]
  {
    var b := RStripFrame(s);
    assert s[..|RStrip(s)|] == (RStrip(s) + b)[..|RStrip(s)|];
  }

  /** The whitespace that `strip()` removes from either end of `s`. */
  lemma {:induction false} StripFrame(s: string) returns (a: string, b: string)
    ensures IsBlank(a) && IsBlank(b) && s == a + Strip(s) + b
  {
    a := LStripFrame(s);
    b := RStripFrame(LStrip(s));
  }

  /** `not s.strip()` holds exactly for blank strings. */
  lemma {:induction false} StripEmptyIff(s: string)
    ensures (Strip(s) == []) == IsBlank(s)
  {
    var a, b := StripFrame(s);
    var r := Strip(s);
    if r == [] {
      assert s == a + b;
    } else {
      assert s[|a|] == r[0];
    }
  }

  lemma {:induction false} StripOfStripped(s: string)
    requires s == [] || (!IsSpace(s[0]) && !IsSpace(s[|s| - 1]))
    ensures Strip(s) == s
  {
  }

  /** Index of the first line boundary in `s`, or `|s|` when there is none. */
  function LineEnd(s: string): (k: nat)
    ensures k <= |s| && NoLineBreak(s[..k]) && (k < |s| ==> IsLineBreak(s[k]))
  {
    if s == [] || IsLineBreak(s[0]) then 0
    else
      var k := 1 + LineEnd(s[1..]);
      assert s[..k] == [s[0]] + s[1..][..k - 1];
      k
  }

  /**
   * `s.splitlines()`: the text between line boundaries, where `\r\n`
   * counts as one boundary and a boundary at the very end does not open
   * an empty last line.
   */
  function SplitLines(s: string): (lines: seq<string>)
    ensures forall i :: 0 <= i < |lines| ==> NoLineBreak(lines[i])
    ensures s == [] ==> lines == []
    ensures s != [] && NoLineBreak(s) ==> lines == [s]
    decreases |s|
  {
    if s == [] then []
    else
      var k := LineEnd(s);
      if k == |s| then
        assert s[..k] == s;
        [s]
      else
        var next := if s[k] == '\r' && k + 1 < |s| && s[k + 1] == '\n' then k + 2 else k + 1;
        [s[..k]] + SplitLines(s[next..])
  }

  /** `"\n".join(lines)`: the inverse that SplitLines undoes (SplitJoinRoundTrip). */
  function JoinNewline(lines: seq<string>): string {
    if lines == [] then []
    else if |lines| == 1 then lines[0]
    else lines[0] + "\n" + JoinNewline(lines[1..])
  }

  /** Three lines joined with newlines. */
  lemma {:induction false} JoinNewlineThree(a: string, b: string, c: string)
    ensures JoinNewline([a, b, c]) == a + "\n" + b + "\n" + c
  {
    var xs := [a, b, c];
    assert xs[1..] == [b, c] && xs[1..][1..] == [c];
    assert JoinNewline([b, c]) == b + "\n" + c;
  }

  lemma {:induction false} LineEndOfBrokenText(a: string, b: string)
    requires NoLineBreak(a) && b != [] && IsLineBreak(b[0])
    ensures LineEnd(a + b) == |a|
    decreases |a|
  {
    if a != [] {
      assert (a + b)[1..] == a[1..] + b;
      LineEndOfBrokenText(a[1..], b);
    }
  }

  /**
   * Splitting the newline-joined lines gives them back, as long as no line
   * holds a boundary and the last line is not empty (an empty last line
   * would leave only a trailing `\n`, which splitlines does not report).
   */
  lemma {:induction false} SplitJoinRoundTrip(lines: seq<string>)
    requires forall i :: 0 <= i < |lines| ==> NoLineBreak(lines[i])
    requires lines != [] ==> lines[|lines| - 1] != []
    ensures SplitLines(JoinNewline(lines)) == lines
  {
    if |lines| > 1 {
      var s := JoinNewline(lines);
      var a := lines[0];
      var rest := JoinNewline(lines[1..]);
      assert s == a + ("\n" + rest);
      LineEndOfBrokenText(a, "\n" + rest);
      assert s[..|a|] == a;
      assert s[|a| + 1..] == rest;
      SplitJoinRoundTrip(lines[1..]);
    }
  }

  /** `" ".join(lines)`. */
  function JoinSpace(lines: seq<string>): (r: string)
    ensures lines == [] ==> r == []
    ensures |lines| == 1 ==> r == lines[0]
    ensures lines != [] ==> StartsWith(r, lines[0])
    ensures (forall i :: 0 <= i < |lines| ==> NoLineBreak(lines[i])) ==> NoLineBreak(r)
  {
    if lines == [] then []
    else if |lines| == 1 then lines[0]
    else
      var r := lines[0] + " " + JoinSpace(lines[1..]);
      assert r[..|lines[0]|] == lines[0];
      r
  }

  predicate IsDigit(c: char) {
    '0' <= c <= '9'
  }

  predicate AllDigits(s: string) {
    forall i :: 0 <= i < |s| ==> IsDigit(s[i])
  }

  function DigitChar(d: nat): (c: char)
    requires d < 10
    ensures IsDigit(c) && c as int - '0' as int == d
  {
    (d + '0' as int) as char
  }

  /** The number a string of decimal digits denotes. */
  function DigitsValue(s: string): nat
    requires AllDigits(s)
  {
    if s == [] then 0
    else 10 * DigitsValue(s[..|s| - 1]) + (s[|s| - 1] as int - '0' as int)
  }

  /** `str(n)` for a natural number: the shortest decimal digits that denote it. */
  function NatToDecimal(n: nat): (r: string)
    ensures r != [] && AllDigits(r) && DigitsValue(r) == n
    ensures |r| > 1 ==> r[0] != '0'
  {
    if n < 10 then [DigitChar(n)]
    else
      var prefix := NatToDecimal(n / 10);
      var r := prefix + [DigitChar(n % 10)];
      assert r[..|r| - 1] == prefix;
      r
  }

  /** `str(n)`: a minus sign for a negative number, then the digits of its magnitude. */
  function IntToDecimal(n: int): (r: string)
    ensures r != []
  {
    if n < 0 then "-" + NatToDecimal(-n) else NatToDecimal(n)
  }

  /** `int(s)` restricted to what IntToDecimal produces: an optional minus sign and digits. */
  function ParseInt(s: string): Option<int> {
    if |s| > 1 && s[0] == '-' && AllDigits(s[1..]) then Some(0 - DigitsValue(s[1..]) as int)
    else if s != [] && AllDigits(s) then Some(DigitsValue(s))
    else None
  }

  lemma {:induction false} DecimalRoundTrip(n: int)
    ensures ParseInt(IntToDecimal(n)) == Some(n)
  {
    if n < 0 {
      var d := NatToDecimal(-n);
      assert ("-" + d)[1..] == d;
    }
  }
}
