/**
 * The compilation of SQL LIKE patterns into regular expressions, with the regular
 * expressions read back from their text.
 */
module LikePattern {
  import opened Prelude

  // ---------------------------------------------------------------- LIKE patterns

  /** Line terminators as in section 12.3 of ECMA-262, the characters that `.` does not match. */
  predicate IsLineTerminator(c: char) {
    c == '\n' || c == '\r' || c == '\U{2028}' || c == '\U{2029}'
  }

  predicate HasLineTerminator(s: string) {
    exists c <- s :: IsLineTerminator(c)
  }

  /** Whether a wildcard may stand for `c`, in a dialect where wildcards do or do not cover line terminators. */
  predicate Covers(c: char, newlines: bool) {
    newlines || !IsLineTerminator(c)
  }

  /**
   * The meaning of LIKE: `_` is any single character, `%` any sequence, and a backslash
   * takes the next character literally. A backslash that ends the pattern stands for nothing.
   */
  ghost predicate LikeMatches(pattern: string, s: string, newlines: bool)
    decreases |pattern|
  {
    if pattern == "" then s == ""
    else if pattern == "\\" then s == ""
    else if pattern[0] == '\\' then s != "" && s[0] == pattern[1] && LikeMatches(pattern[2..], s[1..], newlines)
    else if pattern[0] == '_' then s != "" && Covers(s[0], newlines) && LikeMatches(pattern[1..], s[1..], newlines)
    else if pattern[0] == '%' then
      exists i :: 0 <= i <= |s| && CoversAll(s[..i], newlines) && LikeMatches(pattern[1..], s[i..], newlines)
    else s != "" && s[0] == pattern[0] && LikeMatches(pattern[1..], s[1..], newlines)
  }

  predicate CoversAll(s: string, newlines: bool) {
    forall c <- s :: Covers(c, newlines)
  }

  /** SQL's LIKE. */
  ghost predicate Like(pattern: string, s: string) {
    LikeMatches(pattern, s, true)
  }

  /** Whether a pattern has a wildcard that is not escaped. */
  predicate HasWildcard(pattern: string) {
    if pattern == "" then false
    else if pattern[0] == '\\' then |pattern| > 1 && HasWildcard(pattern[2..])
    else pattern[0] == '_' || pattern[0] == '%' || HasWildcard(pattern[1..])
  }

  // ---------------------------------------------------------------- regular expressions

  /** The part of regular expressions that occurs: literal characters, `.` and `.*`. */
  datatype Token = Literal(c: char) | AnyOne | AnySequence

  /** The syntax characters of regular expressions, section 22.2.1 of ECMA-262. */
  predicate IsSyntaxCharacter(c: char) {
    c in ".*+?^${}()|[]\\"
  }

  /** Reads the text between the anchors; `None` for anything beyond literals, `.` and `.*`. */
  function Parse(text: string): Option<seq<Token>> {
    if text == "" then Some([])
    else if text[0] == '\\' then
      if |text| > 1 && IsSyntaxCharacter(text[1]) then Prepend(Literal(text[1]), Parse(text[2..])) else None
    else if text[0] == '.' then
      if |text| > 1 && text[1] == '*' then Prepend(AnySequence, Parse(text[2..])) else Prepend(AnyOne, Parse(text[1..]))
    else if IsSyntaxCharacter(text[0]) then None
    else Prepend(Literal(text[0]), Parse(text[1..]))
  }

  function Prepend(t: Token, ts: Option<seq<Token>>): Option<seq<Token>> {
    if ts.Some? then Some([t] + ts.value) else None
  }

  /** Reads an expression that is anchored at both ends. */
  function ParseAnchored(text: string): Option<seq<Token>> {
    if |text| >= 2 && text[0] == '^' && text[|text| - 1] == '$' then Parse(text[1..|text| - 1]) else None
  }

  /** Whether the tokens match the whole string, by backtracking. */
  predicate TokensMatch(ts: seq<Token>, s: string)
    decreases |ts| + |s|
  {
    if ts == [] then s == ""
    else match ts[0]
      case Literal(c) => s != "" && s[0] == c && TokensMatch(ts[1..], s[1..])
      case AnyOne => s != "" && !IsLineTerminator(s[0]) && TokensMatch(ts[1..], s[1..])
      case AnySequence =>
        TokensMatch(ts[1..], s) || (s != "" && !IsLineTerminator(s[0]) && TokensMatch(ts, s[1..]))
  }

  /** `new RegExp(text).test(s)` for an anchored expression of the supported part. */
  predicate Test(text: string, s: string) {
    ParseAnchored(text).Some? && TokensMatch(ParseAnchored(text).value, s)
  }

  // ---------------------------------------------------------------- the compiler

  /** What is appended for the characters of a pattern, given whether the first one is escaped. */
  function Emitted(pattern: string, isEscaped: bool): string {
    if pattern == "" then ""
    else
      var c, rest := pattern[0], pattern[1..];
      if c == '\\' then (if isEscaped then "\\\\" else "") + Emitted(rest, !isEscaped)
      else if c in ".*+?^${}()|[]" then ['\\', c] + Emitted(rest, false)
      else if c == '_' && !isEscaped then "." + Emitted(rest, false)
      else if c == '%' && !isEscaped then ".*" + Emitted(rest, false)
      else [c] + Emitted(rest, false)
  }

  /** The tokens that a pattern denotes. */
  function Tokens(pattern: string): seq<Token> {
    if pattern == "" || pattern == "\\" then []
    else if pattern[0] == '\\' then [Literal(pattern[1])] + Tokens(pattern[2..])
    else if pattern[0] == '_' then [AnyOne] + Tokens(pattern[1..])
    else if pattern[0] == '%' then [AnySequence] + Tokens(pattern[1..])
    else [Literal(pattern[0])] + Tokens(pattern[1..])
  }

  /** The text of the regular expression compiled for a pattern. */
  function LikeRegexp(pattern: string): string {
    "^" + Emitted(pattern, false) + "$"
  }

  method CreateLikeRegexp(pattern: string) returns (regexStr: string)
    ensures regexStr == LikeRegexp(pattern)
    ensures ParseAnchored(regexStr) == Some(Tokens(pattern))
    ensures forall s :: Test(regexStr, s) <==> LikeMatches(pattern, s, false)
  {
    regexStr := "^";
    var isEscaped := false;
    for i := 0 to |pattern|
      invariant regexStr + Emitted(pattern[i..], isEscaped) == "^" + Emitted(pattern, false)
    {
      var c := pattern[i];
      ghost var rest := Emitted(pattern[i..], isEscaped);
      assert pattern[i..][1..] == pattern[i + 1..];
      if c == '\\' {
        if isEscaped {
          isEscaped := false;
          regexStr := regexStr + "\\\\";
        } else {
          isEscaped := true;
        }
        continue;
      }
      if c in ".*+?^${}()|[]" {
        regexStr := regexStr + "\\" + [c];
        isEscaped := false;
        continue;
      }
      if c == '_' && !isEscaped {
        regexStr := regexStr + ".";
        continue;
      }
      if c == '%' && !isEscaped {
        regexStr := regexStr + ".*";
        continue;
      }
      regexStr := regexStr + [c];
      isEscaped := false;
    }
    assert pattern[|pattern|..] == "";
    regexStr := regexStr + "$";
    assert regexStr == LikeRegexp(pattern);
    LikeRegexpParses(pattern);
    forall s
      ensures Test(regexStr, s) <==> LikeMatches(pattern, s, false)
    {
      LikeRegexpMeans(pattern, s);
    }
  }

  lemma EmittedStart(pattern: string, isEscaped: bool)
    ensures Emitted(pattern, isEscaped) != "" ==> Emitted(pattern, isEscaped)[0] != '*'
  {
  }

  /** Reading the emitted text yields the tokens of the pattern, with a pending escape put back. */
  lemma {:induction false} EmittedParses(pattern: string)
    ensures Parse(Emitted(pattern, false)) == Some(Tokens(pattern))
    decreases |pattern|
  {
    if pattern == "" {
    } else if pattern[0] == '\\' {
      assert Emitted(pattern, false) == Emitted(pattern[1..], true);
      if |pattern| > 1 {
        var rest := Emitted(pattern[2..], false);
        EmittedParses(pattern[2..]);
        assert pattern[1..][1..] == pattern[2..];
        if IsSyntaxCharacter(pattern[1]) {
          assert Emitted(pattern[1..], true) == ['\\', pattern[1]] + rest;
          assert (['\\', pattern[1]] + rest)[2..] == rest;
        } else {
          assert ([pattern[1]] + rest)[1..] == rest;
        }
      }
    } else {
      var rest := Emitted(pattern[1..], false);
      EmittedParses(pattern[1..]);
      EmittedStart(pattern[1..], false);
      assert (['\\', pattern[0]] + rest)[2..] == rest && ([pattern[0]] + rest)[1..] == rest;
      assert ("." + rest)[1..] == rest && (".*" + rest)[2..] == rest;
    }
  }

  /** The compiled text is a regular expression that denotes the pattern's tokens. */
  lemma LikeRegexpParses(pattern: string)
    ensures ParseAnchored(LikeRegexp(pattern)) == Some(Tokens(pattern))
  {
    EmittedParses(pattern);
    var text := LikeRegexp(pattern);
    assert text[1..|text| - 1] == Emitted(pattern, false);
  }

  lemma {:induction false} AnySequenceSplits(ts: seq<Token>, s: string)
    ensures TokensMatch([AnySequence] + ts, s) <==>
            exists i :: 0 <= i <= |s| && CoversAll(s[..i], false) && TokensMatch(ts, s[i..])
    decreases |s|
  {
    assert ([AnySequence] + ts)[1..] == ts;
    assert s[0..] == s && CoversAll(s[..0], false);
    if s != "" {
      AnySequenceSplits(ts, s[1..]);
      forall i | 0 <= i <= |s[1..]| && CoversAll(s[1..][..i], false) && TokensMatch(ts, s[1..][i..])
          && Covers(s[0], false)
        ensures CoversAll(s[..i + 1], false) && TokensMatch(ts, s[i + 1..])
      {
        assert s[..i + 1] == [s[0]] + s[1..][..i] && s[i + 1..] == s[1..][i..];
      }
      forall i | 0 < i <= |s| && CoversAll(s[..i], false) && TokensMatch(ts, s[i..])
        ensures Covers(s[0], false) && CoversAll(s[1..][..i - 1], false) && TokensMatch(ts, s[1..][i - 1..])
      {
        assert s[..i][0] == s[0];
        assert s[1..][..i - 1] == s[..i][1..] && s[1..][i - 1..] == s[i..];
      }
    }
  }

  lemma {:induction false} TokensMeanLike(pattern: string, s: string)
    ensures TokensMatch(Tokens(pattern), s) <==> LikeMatches(pattern, s, false)
    decreases |pattern|
  {
    var ts := Tokens(pattern);
    if pattern == "" || pattern == "\\" {
    } else if pattern[0] == '\\' {
      assert ts[1..] == Tokens(pattern[2..]);
      if s != "" {
        TokensMeanLike(pattern[2..], s[1..]);
      }
    } else if pattern[0] == '%' {
      AnySequenceSplits(Tokens(pattern[1..]), s);
      forall i | 0 <= i <= |s|
        ensures TokensMatch(Tokens(pattern[1..]), s[i..]) <==> LikeMatches(pattern[1..], s[i..], false)
      {
        TokensMeanLike(pattern[1..], s[i..]);
      }
    } else {
      assert ts[1..] == Tokens(pattern[1..]);
      if s != "" {
        TokensMeanLike(pattern[1..], s[1..]);
      }
    }
  }

  /** The compiled expression matches as LIKE does, except that wildcards stop at line terminators. */
  lemma LikeRegexpMeans(pattern: string, s: string)
    ensures Test(LikeRegexp(pattern), s) <==> LikeMatches(pattern, s, false)
  {
    LikeRegexpParses(pattern);
    TokensMeanLike(pattern, s);
  }

  // ---------------------------------------------------------------- when the expression means LIKE

  lemma {:induction false} NoTerminators(pattern: string, s: string)
    requires !HasLineTerminator(s)
    ensures LikeMatches(pattern, s, false) <==> Like(pattern, s)
    decreases |pattern|
  {
    if pattern == "" || pattern == "\\" {
    } else if pattern[0] == '%' {
      forall i | 0 <= i <= |s|
        ensures CoversAll(s[..i], false)
        ensures LikeMatches(pattern[1..], s[i..], false) <==> LikeMatches(pattern[1..], s[i..], true)
      {
        NoTerminators(pattern[1..], s[i..]);
      }
    } else if s != "" {
      NoTerminators(pattern[if pattern[0] == '\\' then 2 else 1..], s[1..]);
    }
  }

  /** A string is matched as by LIKE under all patterns exactly if it has no line terminator. */
  lemma MatchesAsLike(s: string)
    ensures (forall pattern :: Test(LikeRegexp(pattern), s) <==> Like(pattern, s)) <==> !HasLineTerminator(s)
  {
    if HasLineTerminator(s) {
      assert Like("%", s) by {
        assert s[|s|..] == "" && "%"[1..] == "";
      }
      LikeRegexpMeans("%", s);
      assert s[..|s|] == s;
      assert !LikeMatches("%", s, false);
    } else {
      forall pattern
        ensures Test(LikeRegexp(pattern), s) <==> Like(pattern, s)
      {
        LikeRegexpMeans(pattern, s);
        NoTerminators(pattern, s);
      }
    }
  }

  function TerminatorsIn(s: string): nat {
    if s == "" then 0 else (if IsLineTerminator(s[0]) then 1 else 0) + TerminatorsIn(s[1..])
  }

  function TerminatorLiterals(ts: seq<Token>): nat {
    if ts == [] then 0
    else (if ts[0].Literal? && IsLineTerminator(ts[0].c) then 1 else 0) + TerminatorLiterals(ts[1..])
  }

  lemma {:induction false} TerminatorsAreLiteral(ts: seq<Token>, s: string)
    requires TokensMatch(ts, s)
    ensures TerminatorsIn(s) == TerminatorLiterals(ts)
    decreases |ts| + |s|
  {
    if ts != [] {
      if ts[0].AnySequence? && TokensMatch(ts[1..], s) {
        TerminatorsAreLiteral(ts[1..], s);
      } else if ts[0].AnySequence? {
        TerminatorsAreLiteral(ts, s[1..]);
      } else {
        TerminatorsAreLiteral(ts[1..], s[1..]);
      }
    }
  }

  /** The string in which every wildcard of the pattern stands for a line feed. */
  function LineFeeds(pattern: string): string {
    if pattern == "" || pattern == "\\" then ""
    else if pattern[0] == '\\' then [pattern[1]] + LineFeeds(pattern[2..])
    else [if pattern[0] == '_' || pattern[0] == '%' then '\n' else pattern[0]] + LineFeeds(pattern[1..])
  }

  lemma {:induction false} LineFeedsMatch(pattern: string)
    ensures Like(pattern, LineFeeds(pattern))
    ensures TerminatorsIn(LineFeeds(pattern)) >= TerminatorLiterals(Tokens(pattern))
    ensures HasWildcard(pattern) ==> TerminatorsIn(LineFeeds(pattern)) > TerminatorLiterals(Tokens(pattern))
    decreases |pattern|
  {
    if pattern != "" && pattern != "\\" {
      var rest := pattern[if pattern[0] == '\\' then 2 else 1..];
      LineFeedsMatch(rest);
      var s := LineFeeds(pattern);
      assert s[1..] == LineFeeds(rest) && Tokens(pattern)[1..] == Tokens(rest);
      assert CoversAll(s[..1], true);
    }
  }

  lemma {:induction false} NoWildcards(pattern: string, s: string)
    requires !HasWildcard(pattern)
    ensures LikeMatches(pattern, s, false) <==> Like(pattern, s)
    decreases |pattern|
  {
    if pattern != "" && pattern != "\\" && s != "" {
      NoWildcards(pattern[if pattern[0] == '\\' then 2 else 1..], s[1..]);
    }
  }

  /** A pattern matches all strings as by LIKE exactly if it has no wildcard. */
  lemma PatternMatchesAsLike(pattern: string)
    ensures (forall s :: Test(LikeRegexp(pattern), s) <==> Like(pattern, s)) <==> !HasWildcard(pattern)
  {
    if HasWildcard(pattern) {
      var s := LineFeeds(pattern);
      LineFeedsMatch(pattern);
      LikeRegexpParses(pattern);
      if Test(LikeRegexp(pattern), s) {
        TerminatorsAreLiteral(Tokens(pattern), s);
      }
    } else {
      forall s
        ensures Test(LikeRegexp(pattern), s) <==> Like(pattern, s)
      {
        LikeRegexpMeans(pattern, s);
        NoWildcards(pattern, s);
      }
    }
  }
}
