/**
 * The filter that turns llama-cli's combined stdout/stderr into the
 * model's answer (`call_llm` in voice2llm_vosk.py, and its copy in
 * gui_voice_llm.py): split into lines, drop every line that one of eight
 * rules recognises as log output, join the rest with single spaces, strip.
 */
module OutputFilter {
  import opened Text
  import opened Patterns
  import opened Selection

  /** Rule 1, `^\s*\w+ seed:` (the sampler seed banner), as `\s*` and the rest. */
  const SeedTail: Pattern := [Plus(Word)] + Literal(" seed:")
  const SeedPattern: Pattern := [Star(Space)] + SeedTail
  /** Rule 2, `^\s*sampler params:`. */
  const SamplerParamsPattern: Pattern := [Star(Space)] + Literal("sampler params:")
  /** Rule 3, `^\s*sampler chain:`. */
  const SamplerChainPattern: Pattern := [Star(Space)] + Literal("sampler chain:")
  /** Rule 4, `^\s*llama_perf_` (performance counters). */
  const PerfPattern: Pattern := [Star(Space)] + Literal("llama_perf_")
  /** Rule 5, `^\s*\w+\s*=` (parameter assignments). */
  const AssignmentTail: Pattern := [Plus(Word), Star(Space), One(Exactly('='))]
  const AssignmentPattern: Pattern := [Star(Space)] + AssignmentTail
  /** Rule 6, `^\s*\w+:` (any other key:value log line). */
  const KeyValueTail: Pattern := [Plus(Word), One(Exactly(':'))]
  const KeyValuePattern: Pattern := [Star(Space)] + KeyValueTail
  /** Rule 8, `^[^\w]+$` (punctuation-only lines). */
  const PunctuationPattern: Pattern := [Plus(NonWord), EndAnchor]

  /** A line the filter drops: one of the eight rules recognises it (rule 7 is `not line.strip()`). */
  predicate Dropped(line: string)
    ensures !Dropped(line) ==> !IsBlank(line) && exists i :: 0 <= i < |line| && IsWordChar(line[i])
  {
    PunctuationRule(line);
    StripEmptyIff(line);
    Matches(SeedPattern, line)
    || Matches(SamplerParamsPattern, line)
    || Matches(SamplerChainPattern, line)
    || Matches(PerfPattern, line)
    || Matches(AssignmentPattern, line)
    || Matches(KeyValuePattern, line)
    || Strip(line) == []
    || Matches(PunctuationPattern, line)
  }

  // Each expression is deterministic (`\s`, `\w` and the literal characters
  // that follow them never overlap), so each reads as a plain condition on
  // t, the line without its leading whitespace, and on the run of word
  // characters that starts t.

  predicate IsSeedLine(line: string) {
    var t := LStrip(line);
    var n := Run(Word, t);
    n > 0 && StartsWith(t[n..], " seed:")
  }

  predicate HasLeadingKey(line: string, key: string) {
    StartsWith(LStrip(line), key)
  }

  predicate IsAssignment(line: string) {
    var t := LStrip(line);
    var n := Run(Word, t);
    n > 0 && var u := LStrip(t[n..]); u != [] && u[0] == '='
  }

  predicate IsKeyValue(line: string) {
    var t := LStrip(line);
    var n := Run(Word, t);
    0 < n < |t| && t[n] == ':'
  }

  predicate IsPunctuation(line: string) {
    line != [] && forall i :: 0 <= i < |line| ==> !IsWordChar(line[i])
  }

  lemma {:induction false} AfterLeadingSpace(q: Pattern, line: string)
    requires Separated(Space, q)
    ensures Matches([Star(Space)] + q, line) <==> Matches(q, LStrip(line))
  {
    StarTakesRun(Space, q, line);
    SpaceRunIsLStrip(line);
  }

  lemma {:induction false} LiteralSeparated(cl: CharClass, w: string)
    requires w != [] && !InClass(cl, w[0])
    ensures Separated(cl, Literal(w))
  {
    forall c | InClass(cl, c) ensures !MayStart(Literal(w), c) {
      LiteralStart(w, c);
    }
  }

  lemma {:induction false} SeedRule(line: string)
    ensures Matches(SeedPattern, line) <==> IsSeedLine(line)
  {
    var lit := Literal(" seed:");
    var q := SeedTail;
    LeadingWordSeparated(lit);
    AfterLeadingSpace(q, line);
    LiteralSeparated(Word, " seed:");
    var t := LStrip(line);
    PlusTakesRun(Word, lit, t);
    LiteralMatches(" seed:", t[Run(Word, t)..]);
  }

  lemma {:induction false} LeadingKeyRule(key: string, line: string)
    requires key != [] && !IsSpace(key[0])
    ensures Matches([Star(Space)] + Literal(key), line) <==> HasLeadingKey(line, key)
  {
    LiteralSeparated(Space, key);
    AfterLeadingSpace(Literal(key), line);
    LiteralMatches(key, LStrip(line));
  }

  /** `\s*` followed by one character `c` that is not whitespace: the stripped text starts with `c`. */
  lemma {:induction false} SpaceThenChar(c: char, u: string)
    requires !IsSpace(c)
    ensures Matches([Star(Space), One(Exactly(c))], u) <==> LStrip(u) != [] && LStrip(u)[0] == c
  {
    var one := [One(Exactly(c))];
    assert [Star(Space), One(Exactly(c))] == [Star(Space)] + one;
    assert Separated(Space, one);
    AfterLeadingSpace(one, LStrip(u));
    AfterLeadingSpace(one, u);
    assert one[1..] == [];
  }

  lemma {:induction false} WordThenSeparated(c: char)
    requires !IsSpace(c) && !IsWordChar(c)
    ensures Separated(Word, [Star(Space), One(Exactly(c))])
  {
    var q := [Star(Space), One(Exactly(c))];
    forall d | IsWordChar(d) ensures !MayStart(q, d) {
      assert q[1..] == [One(Exactly(c))];
    }
  }

  lemma {:induction false} LeadingWordSeparated(q: Pattern)
    ensures Separated(Space, [Plus(Word)] + q)
  {
    var p := [Plus(Word)] + q;
    forall d | IsSpace(d) ensures !MayStart(p, d) {
      assert p[0] == Plus(Word);
    }
  }

  lemma {:induction false} AssignmentRule(line: string)
    ensures Matches(AssignmentPattern, line) <==> IsAssignment(line)
  {
    var afterWord := [Star(Space), One(Exactly('='))];
    var q := AssignmentTail;
    assert q == [Plus(Word)] + afterWord;
    LeadingWordSeparated(afterWord);
    AfterLeadingSpace(q, line);
    WordThenSeparated('=');
    var t := LStrip(line);
    PlusTakesRun(Word, afterWord, t);
    SpaceThenChar('=', t[Run(Word, t)..]);
  }

  lemma {:induction false} KeyValueRule(line: string)
    ensures Matches(KeyValuePattern, line) <==> IsKeyValue(line)
  {
    var colon := [One(Exactly(':'))];
    var q := KeyValueTail;
    assert q == [Plus(Word)] + colon;
    LeadingWordSeparated(colon);
    assert Separated(Word, colon);
    AfterLeadingSpace(q, line);
    var t := LStrip(line);
    PlusTakesRun(Word, colon, t);
    assert colon[1..] == [];
  }

  lemma {:induction false} PunctuationRule(line: string)
    ensures Matches(PunctuationPattern, line) <==> IsPunctuation(line)
  {
    var end := [EndAnchor];
    assert PunctuationPattern == [Plus(NonWord)] + end;
    assert Separated(NonWord, end);
    PlusTakesRun(NonWord, end, line);
    assert end[1..] == [];
    var n := Run(NonWord, line);
    if IsPunctuation(line) {
      RunIs(NonWord, line, |line|);
    }
  }

  /** The eight rules read as plain conditions on the line. */
  lemma {:induction false} DroppedIff(line: string)
    ensures Dropped(line) <==>
      IsSeedLine(line)
      || HasLeadingKey(line, "sampler params:")
      || HasLeadingKey(line, "sampler chain:")
      || HasLeadingKey(line, "llama_perf_")
      || IsAssignment(line)
      || IsKeyValue(line)
      || IsBlank(line)
      || IsPunctuation(line)
  {
    SeedRule(line);
    LeadingKeyRule("sampler params:", line);
    LeadingKeyRule("sampler chain:", line);
    LeadingKeyRule("llama_perf_", line);
    AssignmentRule(line);
    KeyValueRule(line);
    PunctuationRule(line);
    StripEmptyIff(line);
  }

  /** The lines that survive the filter, in their original order. */
  function Kept(lines: seq<string>): seq<string> {
    Keep(lines, Dropped)
  }

  /** What `call_llm` returns for the output of a successful run. */
  function Filter(output: string): (response: string)
    ensures response == [] || (!IsSpace(response[0]) && !IsSpace(response[|response| - 1]))
  {
    Strip(JoinSpace(Kept(SplitLines(output))))
  }

  /** The loop of `call_llm`: the rules tried in the source's order, the survivors joined and stripped. */
  method FilterOutput(output: string) returns (response: string)
    ensures response == Strip(JoinSpace(Kept(SplitLines(output))))
  {
    var lines := SplitLines(output);
    var filtered: seq<string> := [];
    for i := 0 to |lines|
      invariant filtered == Keep(lines[..i], Dropped)
    {
      assert lines[..i + 1][..i] == lines[..i];
      var line := lines[i];
      if Matches(SeedPattern, line) { continue; }
      if Matches(SamplerParamsPattern, line) { continue; }
      if Matches(SamplerChainPattern, line) { continue; }
      if Matches(PerfPattern, line) { continue; }
      if Matches(AssignmentPattern, line) { continue; }
      if Matches(KeyValuePattern, line) { continue; }
      if Strip(line) == [] { continue; }
      if Matches(PunctuationPattern, line) { continue; }
      filtered := filtered + [line];
    }
    assert lines[..|lines|] == lines;
    response := Strip(JoinSpace(filtered));
  }

  /** The answer is a single line (Filter's contract adds: with no whitespace at either end). */
  lemma {:induction false} FilterShape(output: string)
    ensures NoLineBreak(Filter(output))
  {
    var lines := SplitLines(output);
    var kept := Kept(lines);
    forall i | 0 <= i < |kept| ensures NoLineBreak(kept[i]) {
      KeepMembers(lines, Dropped, kept[i]);
    }
    var joined := JoinSpace(kept);
    var r := Strip(joined);
    var a, b := StripFrame(joined);
    forall i | 0 <= i < |r| ensures !IsLineBreak(r[i]) {
      assert r[i] == joined[|a| + i];
    }
  }

  /** The answer is empty exactly when every line of the output was dropped. */
  lemma {:induction false} FilterEmptyIff(output: string)
    ensures Filter(output) == [] <==> forall i :: 0 <= i < |SplitLines(output)| ==> Dropped(SplitLines(output)[i])
  {
    var lines := SplitLines(output);
    var kept := Kept(lines);
    KeepEmptyIff(lines, Dropped);
    var joined := JoinSpace(kept);
    StripEmptyIff(joined);
    if kept != [] {
      var first := kept[0];
      KeepMembers(lines, Dropped, first);
      StripEmptyIff(first);
      var j :| 0 <= j < |first| && !IsSpace(first[j]);
      assert joined[j] == first[j];
    }
  }

  lemma {:induction false} TailsUnanchored()
    ensures Unanchored(SeedTail) && Unanchored(AssignmentTail) && Unanchored(KeyValueTail)
    ensures Unanchored(Literal("sampler params:")) && Unanchored(Literal("sampler chain:"))
    ensures Unanchored(Literal("llama_perf_"))
  {
    var lit := Literal(" seed:");
    assert Unanchored(lit);
    forall i | 0 <= i < |SeedTail| ensures SeedTail[i] != EndAnchor {
      if i > 0 { assert SeedTail[i] == lit[i - 1]; }
    }
  }

  /** A line framed by whitespace is recognised by the `\s*`-led rules whenever its inner part is. */
  lemma {:induction false} PaddedLineMatches(a: string, r: string, b: string)
    requires IsBlank(a)
    ensures Matches(SeedPattern, r) ==> Matches(SeedPattern, a + r + b)
    ensures Matches(SamplerParamsPattern, r) ==> Matches(SamplerParamsPattern, a + r + b)
    ensures Matches(SamplerChainPattern, r) ==> Matches(SamplerChainPattern, a + r + b)
    ensures Matches(PerfPattern, r) ==> Matches(PerfPattern, a + r + b)
    ensures Matches(AssignmentPattern, r) ==> Matches(AssignmentPattern, a + r + b)
    ensures Matches(KeyValuePattern, r) ==> Matches(KeyValuePattern, a + r + b)
  {
    TailsUnanchored();
    if Matches(SeedPattern, r) { PaddedMatch(SeedTail, a, r, b); }
    if Matches(SamplerParamsPattern, r) { PaddedMatch(Literal("sampler params:"), a, r, b); }
    if Matches(SamplerChainPattern, r) { PaddedMatch(Literal("sampler chain:"), a, r, b); }
    if Matches(PerfPattern, r) { PaddedMatch(Literal("llama_perf_"), a, r, b); }
    if Matches(AssignmentPattern, r) { PaddedMatch(AssignmentTail, a, r, b); }
    if Matches(KeyValuePattern, r) { PaddedMatch(KeyValueTail, a, r, b); }
  }

  lemma {:induction false} PaddedPunctuation(a: string, r: string, b: string)
    requires IsBlank(a) && IsBlank(b) && IsPunctuation(r)
    ensures IsPunctuation(a + r + b)
  {
    var line := a + r + b;
    forall i | 0 <= i < |line| ensures !IsWordChar(line[i]) {
      if i < |a| { assert line[i] == a[i]; }
      else if i < |a| + |r| { assert line[i] == r[i - |a|]; }
      else { assert line[i] == b[i - |a| - |r|]; }
    }
  }

  /** A non-blank line that a rule recognises is still recognised with whitespace around it. */
  lemma {:induction false} PaddedLineDropped(a: string, r: string, b: string)
    requires IsBlank(a) && IsBlank(b) && !IsBlank(r)
    requires Dropped(r)
    ensures Dropped(a + r + b)
  {
    PaddedLineMatches(a, r, b);
    StripEmptyIff(r);
    if Matches(PunctuationPattern, r) {
      PunctuationRule(r);
      PaddedPunctuation(a, r, b);
      PunctuationRule(a + r + b);
    }
  }

  /** Stripping a kept line cannot make a rule recognise it. */
  lemma {:induction false} StripKeepsLine(line: string)
    requires !Dropped(line)
    ensures !Dropped(Strip(line))
  {
    var r := Strip(line);
    var a, b := StripFrame(line);
    StripEmptyIff(line);
    if Dropped(r) {
      PaddedLineDropped(a, r, b);
    }
  }

  /**
   * Filtering is idempotent when at most one line survives. (With two
   * surviving lines it is not, see FilterNotIdempotent.)
   */
  lemma {:induction false} FilterIdempotentOnOneLine(output: string)
    requires |Kept(SplitLines(output))| <= 1
    ensures Filter(Filter(output)) == Filter(output)
  {
    var lines := SplitLines(output);
    var kept := Kept(lines);
    if kept == [] {
      assert Filter(output) == [];
      assert SplitLines([]) == [];
    } else {
      var line := kept[0];
      KeepMembers(lines, Dropped, line);
      var r := Strip(line);
      assert Filter(output) == r;
      StripKeepsLine(line);
      StripEmptyIff(line);
      var a, b := StripFrame(line);
      assert NoLineBreak(r) by {
        forall i | 0 <= i < |r| ensures !IsLineBreak(r[i]) {
          assert r[i] == line[|a| + i];
        }
      }
      assert SplitLines(r) == [r];
      var single: seq<string> := [r];
      assert single[..0] == [];
      assert Kept([r]) == [r];
      StripOfStripped(r);
    }
  }

  /** A one-line output whose line no rule drops filters to that line, stripped. */
  lemma {:induction false} SingleLineOutput(line: string)
    requires line != [] && NoLineBreak(line) && !Dropped(line)
    ensures Filter(line) == Strip(line)
  {
    var lines := [line];
    assert lines[..0] == [];
  }

  /** A one-line output whose line a rule drops filters to the empty answer. */
  lemma {:induction false} SingleDroppedLineOutput(line: string)
    requires line != [] && NoLineBreak(line) && Dropped(line)
    ensures Filter(line) == []
  {
    var lines := [line];
    assert lines[..0] == [];
  }

  /**
   * Rule 6 is broad: a genuine answer that starts with a word and a colon
   * is taken for a log line, and the answer comes out empty.
   */
  lemma {:induction false} AnswerWithColonIsDropped(line: string)
    requires line == "Dosage: 200mg twice daily."
    ensures Filter(line) == []
  {
    assert NoLineBreak(line);
    DosageLineDropped(line);
    SingleDroppedLineOutput(line);
  }

  lemma {:induction false} DosageLineDropped(line: string)
    requires line == "Dosage: 200mg twice daily."
    ensures Dropped(line)
  {
    assert LStrip(line) == line;
    RunIs(Word, line, 6);
    KeyValueRule(line);
  }

  lemma {:induction false} SeedBannerDropped(seed: string)
    requires seed == "sampler seed: 42"
    ensures Dropped(seed)
  {
    assert LStrip(seed) == seed;
    RunIs(Word, seed, 7);
    assert seed[7..][..6] == " seed:";
    SeedRule(seed);
  }

  lemma {:induction false} PerfCounterDropped(perf: string)
    requires perf == "llama_perf_eval: 3ms"
    ensures Dropped(perf)
  {
    assert LStrip(perf) == perf;
    assert perf[..11] == "llama_perf_";
    LeadingKeyRule("llama_perf_", perf);
  }

  /**
   * A sentence that opens with a word, a space and a second word is kept,
   * unless its first letters spell one of the log prefixes.
   */
  lemma {:induction false} SentenceKept(line: string, n: nat)
    requires 0 < n && n + 1 < |line|
    requires forall i :: 0 <= i < n ==> IsWordChar(line[i])
    requires line[n] == ' ' && IsWordChar(line[n + 1])
    requires line[0] != 's' && line[0] != 'l' && line[n + 1] != 's'
    ensures !Dropped(line)
  {
    assert LStrip(line) == line;
    SentenceNoRule(line, n);
    DroppedIff(line);
  }

  lemma {:induction false} SentenceNoRule(line: string, n: nat)
    requires 0 < n && n + 1 < |line| && LStrip(line) == line
    requires forall i :: 0 <= i < n ==> IsWordChar(line[i])
    requires line[n] == ' ' && IsWordChar(line[n + 1])
    requires line[0] != 's' && line[0] != 'l' && line[n + 1] != 's'
    ensures !IsSeedLine(line) && !IsAssignment(line) && !IsKeyValue(line)
    ensures !HasLeadingKey(line, "sampler params:") && !HasLeadingKey(line, "sampler chain:")
    ensures !HasLeadingKey(line, "llama_perf_")
    ensures !IsBlank(line) && !IsPunctuation(line)
  {
    RunIs(Word, line, n);
    assert LStrip(line[n..]) == line[n + 1..];
    assert !IsWordChar(line[n]);
  }

  /** Of three lines, only the middle one is kept: the result is that line, trimmed. */
  lemma {:induction false} OnlyMiddleKept(first: string, middle: string, last: string)
    requires NoLineBreak(first) && NoLineBreak(middle) && NoLineBreak(last) && last != []
    requires Dropped(first) && !Dropped(middle) && Dropped(last)
    ensures Filter(first + "\n" + middle + "\n" + last) == Strip(middle)
  {
    var lines := [first, middle, last];
    JoinNewlineThree(first, middle, last);
    SplitJoinRoundTrip(lines);
    KeepThree(first, middle, last, Dropped);
    assert Kept(lines) == [middle];
  }

  lemma {:induction false} AnswerLineKept(answer: string)
    requires answer == "The treatment is ibuprofen."
    ensures !Dropped(answer)
  {
    SentenceKept(answer, 3);
  }

  lemma {:induction false} AnswerLineTrimmed(answer: string)
    requires answer == "The treatment is ibuprofen."
    ensures NoLineBreak(answer) && Strip(answer) == answer
  {
    assert answer[0] == 'T' && answer[|answer| - 1] == '.';
    StripOfStripped(answer);
  }

  /** The sampler banner and the performance counter are removed; the answer survives alone. */
  lemma {:induction false} BannerAndCountersRemoved(seed: string, answer: string, perf: string)
    requires seed == "sampler seed: 42"
    requires answer == "The treatment is ibuprofen."
    requires perf == "llama_perf_eval: 3ms"
    ensures Filter(seed + "\n" + answer + "\n" + perf) == answer
  {
    assert NoLineBreak(seed) && NoLineBreak(perf) && perf != [];
    SeedBannerDropped(seed);
    PerfCounterDropped(perf);
    AnswerLineKept(answer);
    AnswerLineTrimmed(answer);
    OnlyMiddleKept(seed, answer, perf);
  }

  lemma {:induction false} WordLineKept(first: string)
    requires first == "abc"
    ensures !Dropped(first) && NoLineBreak(first)
  {
    DroppedIff(first);
    assert LStrip(first) == first;
    RunIs(Word, first, 3);
    assert first[3..] == [];
    assert !IsBlank(first) && !IsPunctuation(first);
  }

  lemma {:induction false} EqualsLineKept(second: string)
    requires second == "= 5"
    ensures !Dropped(second) && NoLineBreak(second)
  {
    DroppedIff(second);
    assert LStrip(second) == second;
    RunIs(Word, second, 0);
    assert IsWordChar(second[2]);
    assert !IsBlank(second) && !IsPunctuation(second);
  }

  lemma {:induction false} JoinedAssignmentDropped(joined: string)
    requires joined == "abc = 5"
    ensures Dropped(joined)
  {
    assert LStrip(joined) == joined;
    RunIs(Word, joined, 3);
    assert LStrip(joined[3..]) == joined[4..];
    AssignmentRule(joined);
  }

  /**
   * Filtering is not idempotent in general: two kept lines can join into
   * one that rule 5 drops.
   */
  lemma {:induction false} FilterNotIdempotent(first: string, second: string)
    requires first == "abc" && second == "= 5"
    ensures Filter(first + "\n" + second) == first + " " + second
    ensures Filter(first + " " + second) == []
  {
    WordLineKept(first);
    EqualsLineKept(second);
    BothLinesKept(first, second);
    var joined := first + " " + second;
    assert joined == "abc = 5";
    JoinedLineTrimmed(joined);
    JoinedAssignmentDropped(joined);
    SingleDroppedLineOutput(joined);
  }

  lemma {:induction false} JoinedLineTrimmed(joined: string)
    requires joined == "abc = 5"
    ensures NoLineBreak(joined) && Strip(joined) == joined
  {
    assert joined[0] == 'a' && joined[|joined| - 1] == '5';
    StripOfStripped(joined);
  }

  /** Two lines both kept come out joined by one space, then trimmed. */
  lemma {:induction false} BothLinesKept(first: string, second: string)
    requires NoLineBreak(first) && NoLineBreak(second) && second != []
    requires !Dropped(first) && !Dropped(second)
    ensures Filter(first + "\n" + second) == Strip(first + " " + second)
  {
    var lines := [first, second];
    assert lines[1..] == [second];
    assert JoinNewline(lines) == first + "\n" + second;
    SplitJoinRoundTrip(lines);
    KeepTwo(first, second, Dropped);
    assert JoinSpace(lines) == first + " " + second;
  }
}
