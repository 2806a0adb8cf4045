/**
 * A small model of Python's `re.match` for the expressions the output
 * filter uses: character classes, `x*`, `x+`, literal characters and the
 * `$` anchor. Matches says whether SOME way of matching the pattern against
 * a prefix of the text exists; the backtracking engine reports a match
 * exactly in that case, whatever order it tries the alternatives in.
 */
module Patterns {
  import opened Text

  datatype CharClass = Space | Word | NonWord | Exactly(c: char)

  predicate InClass(cl: CharClass, c: char) {
    match cl
    case Space => IsSpace(c)
    case Word => IsWordChar(c)
    case NonWord => !IsWordChar(c)
    case Exactly(d) => c == d
  }

  /** One element of a pattern: one character of a class, `x*`, `x+`, or `$`. */
  datatype Atom = One(cl: CharClass) | Star(cl: CharClass) | Plus(cl: CharClass) | EndAnchor

  type Pattern = seq<Atom>

  /** The pattern that matches the characters of `w` one by one. */
  function Literal(w: string): (p: Pattern)
    ensures |p| == |w|
    ensures forall i :: 0 <= i < |w| ==> p[i] == One(Exactly(w[i]))
  {
    seq(|w|, i requires 0 <= i < |w| => One(Exactly(w[i])))
  }

  /** Length of the longest prefix of `s` whose characters all belong to `cl`. */
  function Run(cl: CharClass, s: string): (n: nat)
    ensures n <= |s|
    ensures forall i :: 0 <= i < n ==> InClass(cl, s[i])
    ensures n < |s| ==> !InClass(cl, s[n])
  {
    if s != [] && InClass(cl, s[0]) then 1 + Run(cl, s[1..]) else 0
  }

  /** `Run` is the length of any prefix of `cl` characters that the next character does not extend. */
  lemma {:induction false} RunIs(cl: CharClass, s: string, n: nat)
    requires n <= |s|
    requires forall i :: 0 <= i < n ==> InClass(cl, s[i])
    requires n < |s| ==> !InClass(cl, s[n])
    ensures Run(cl, s) == n
    decreases n
  {
    if n > 0 {
      RunIs(cl, s[1..], n - 1);
    }
  }

  /** `c` can be the first character `p` consumes (over-approximated; the empty pattern allows anything). */
  predicate MayStart(p: Pattern, c: char)
    decreases |p|
  {
    p == [] ||
    match p[0]
    case One(cl) => InClass(cl, c)
    case Plus(cl) => InClass(cl, c)
    case Star(cl) => InClass(cl, c) || MayStart(p[1..], c)
    case EndAnchor => false
  }

  /**
   * Some match of `p` starts at the beginning of `s`. `$` matches only at
   * the end of the text: the lines the filter looks at never contain a
   * newline, so its other position (before a final newline) does not arise.
   */
  predicate Matches(p: Pattern, s: string)
    ensures Matches(p, s) && s != [] ==> MayStart(p, s[0])
    decreases |s|, |p|
  {
    if p == [] then true
    else match p[0]
      case One(cl) => s != [] && InClass(cl, s[0]) && Matches(p[1..], s[1..])
      case Star(cl) => Matches(p[1..], s) || (s != [] && InClass(cl, s[0]) && Matches(p, s[1..]))
      case Plus(cl) => s != [] && InClass(cl, s[0]) && Matches([Star(cl)] + p[1..], s[1..])
      case EndAnchor => s == [] && Matches(p[1..], s)
  }

  /** No character of class `cl` can begin a match of `q`: `cl*` then `q` never needs to backtrack. */
  predicate Separated(cl: CharClass, q: Pattern) {
    forall c :: InClass(cl, c) ==> !MayStart(q, c)
  }

  /** `cl*` followed by a pattern separated from `cl` consumes exactly the maximal run of `cl`. */
  lemma {:induction false} StarTakesRun(cl: CharClass, q: Pattern, s: string)
    requires Separated(cl, q)
    ensures Matches([Star(cl)] + q, s) <==> Matches(q, s[Run(cl, s)..])
    decreases |s|
  {
    var p := [Star(cl)] + q;
    assert p[1..] == q;
    if s != [] && InClass(cl, s[0]) {
      StarTakesRun(cl, q, s[1..]);
      assert s[1..][Run(cl, s[1..])..] == s[Run(cl, s)..];
    }
  }

  /** `cl+` followed by a separated pattern: a non-empty run of `cl`, then `q` on what follows it. */
  lemma {:induction false} PlusTakesRun(cl: CharClass, q: Pattern, s: string)
    requires Separated(cl, q)
    ensures Matches([Plus(cl)] + q, s) <==> Run(cl, s) > 0 && Matches(q, s[Run(cl, s)..])
  {
    var p := [Plus(cl)] + q;
    assert p[1..] == q;
    if s != [] && InClass(cl, s[0]) {
      StarTakesRun(cl, q, s[1..]);
      assert s[1..][Run(cl, s[1..])..] == s[Run(cl, s)..];
    }
  }

  lemma {:induction false} LiteralMatches(w: string, s: string)
    ensures Matches(Literal(w), s) <==> StartsWith(s, w)
    decreases |w|
  {
    if w != [] {
      var p := Literal(w);
      assert p[0] == One(Exactly(w[0]));
      assert p[1..] == Literal(w[1..]);
      if s != [] {
        LiteralMatches(w[1..], s[1..]);
        if s[0] == w[0] && StartsWith(s[1..], w[1..]) {
          assert s[..|w|] == [s[0]] + s[1..][..|w| - 1];
        }
      }
    }
  }

  lemma {:induction false} LiteralStart(w: string, c: char)
    requires w != []
    ensures MayStart(Literal(w), c) <==> c == w[0]
  {
    assert Literal(w)[0] == One(Exactly(w[0]));
  }

  /** Skipping the `\s*` at the front of a pattern leaves the text `str.lstrip()` leaves. */
  lemma {:induction false} SpaceRunIsLStrip(s: string)
    ensures s[Run(Space, s)..] == LStrip(s)
    decreases |s|
  {
    if s != [] && IsSpace(s[0]) {
      SpaceRunIsLStrip(s[1..]);
    }
  }

  /** The pattern has no `$`: what it matches does not depend on what follows. */
  predicate Unanchored(p: Pattern) {
    forall i :: 0 <= i < |p| ==> p[i] != EndAnchor
  }

  /** A match of a pattern without `$` survives appending text. */
  lemma {:induction false} MatchExtends(p: Pattern, s: string, x: string)
    requires Unanchored(p)
    requires Matches(p, s)
    ensures Matches(p, s + x)
    decreases |s|, |p|
  {
    if p != [] {
      match p[0]
      case One(cl) =>
        assert (s + x)[1..] == s[1..] + x;
        MatchExtends(p[1..], s[1..], x);
      case Star(cl) =>
        if Matches(p[1..], s) {
          MatchExtends(p[1..], s, x);
        } else {
          assert (s + x)[1..] == s[1..] + x;
          MatchExtends(p, s[1..], x);
        }
      case Plus(cl) =>
        var p' := [Star(cl)] + p[1..];
        assert Unanchored(p') by {
          forall i | 0 <= i < |p'| ensures p'[i] != EndAnchor {
            if i > 0 { assert p'[i] == p[i]; }
          }
        }
        assert (s + x)[1..] == s[1..] + x;
        MatchExtends(p', s[1..], x);
    }
  }

  /** A pattern that starts with `cl*` still matches after more `cl` characters are put in front. */
  lemma {:induction false} StarAbsorbsPrefix(cl: CharClass, q: Pattern, a: string, s: string)
    requires forall i :: 0 <= i < |a| ==> InClass(cl, a[i])
    requires Matches([Star(cl)] + q, s)
    ensures Matches([Star(cl)] + q, a + s)
    decreases |a|
  {
    if a != [] {
      StarAbsorbsPrefix(cl, q, a[1..], s);
      var p := [Star(cl)] + q;
      assert (a + s)[0] == a[0] && (a + s)[1..] == a[1..] + s;
    } else {
      assert a + s == s;
    }
  }

  /** A `\s*`-led pattern without `$` that matches `r` still matches `r` with whitespace before it and anything after. */
  lemma {:induction false} PaddedMatch(q: Pattern, a: string, r: string, b: string)
    requires Unanchored(q) && IsBlank(a)
    requires Matches([Star(Space)] + q, r)
    ensures Matches([Star(Space)] + q, a + r + b)
  {
    var p := [Star(Space)] + q;
    assert Unanchored(p) by {
      forall i | 0 <= i < |p| ensures p[i] != EndAnchor {
        if i > 0 { assert p[i] == q[i - 1]; }
      }
    }
    MatchExtends(p, r, b);
    StarAbsorbsPrefix(Space, q, a, r + b);
    assert a + r + b == a + (r + b);
  }
}
