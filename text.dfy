/**
 * Character-level helpers used by the cleanup tool: the whitespace trimming and
 * lower-casing applied to an operator's answer, and the identifier pattern
 * `^[A-Za-z0-9_.-]+$` that queue names and domains must match.
 * Only ASCII is modelled (see README).
 */
module Text {

  /** The ASCII characters for which Python's `str.isspace()` holds. */
  predicate IsSpace(c: char) {
    c == ' ' || c == '\t' || c == '\n' || c == '\r' || c == '\U{0B}' || c == '\U{0C}'
    || ('\U{1C}' <= c <= '\U{1F}')
  }

  predicate AllSpace(s: string) {
    forall i :: 0 <= i < |s| ==> IsSpace(s[i])
  }

  /** `s.lstrip()`: drop the leading whitespace (see `StripLeftIsSuffix`). */
  function StripLeft(s: string): string {
    if s != [] && IsSpace(s[0]) then StripLeft(s[1..]) else s
  }

  /** `s.rstrip()`: drop the trailing whitespace (see `StripRightIsPrefix`). */
  function StripRight(s: string): string {
    if s != [] && IsSpace(s[|s| - 1]) then StripRight(s[..|s| - 1]) else s
  }

  /** lstrip() keeps a suffix, drops only whitespace, and keeps none at the front. */
  lemma {:induction false} StripLeftIsSuffix(s: string)
    ensures |StripLeft(s)| <= |s| && StripLeft(s) == s[|s| - |StripLeft(s)|..]
    ensures AllSpace(s[..|s| - |StripLeft(s)|])
    ensures StripLeft(s) == [] || !IsSpace(StripLeft(s)[0])
  {
    if s != [] && IsSpace(s[0]) {
      var r := StripLeft(s[1..]);
      StripLeftIsSuffix(s[1..]);
      assert s[1..][..|s| - 1 - |r|] == s[1..|s| - |r|];
    }
  }

  /** rstrip() keeps a prefix, drops only whitespace, and keeps none at the end. */
  lemma {:induction false} StripRightIsPrefix(s: string)
    ensures |StripRight(s)| <= |s| && StripRight(s) == s[..|StripRight(s)|]
    ensures AllSpace(s[|StripRight(s)|..])
    ensures StripRight(s) == [] || !IsSpace(StripRight(s)[|StripRight(s)| - 1])
  {
    if s != [] && IsSpace(s[|s| - 1]) {
      var r := StripRight(s[..|s| - 1]);
      StripRightIsPrefix(s[..|s| - 1]);
      assert s[..|s| - 1][|r|..] == s[|r|..|s| - 1];
      assert s[|r|..] == s[|r|..|s| - 1] + [s[|s| - 1]];
    }
  }

  /** `s.strip()`. */
  function Strip(s: string): string {
    StripRight(StripLeft(s))
  }

  function LowerChar(c: char): char {
    if 'A' <= c <= 'Z' then (c as int - 'A' as int + 'a' as int) as char else c
  }

  /** `s.lower()`, restricted to ASCII letters. */
  function Lower(s: string): (r: string)
    ensures |r| == |s|
  {
    if s == [] then [] else [LowerChar(s[0])] + Lower(s[1..])
  }

  /** A character of the class `[A-Za-z0-9_.-]`. */
  predicate AllowedChar(c: char) {
    ('A' <= c <= 'Z') || ('a' <= c <= 'z') || ('0' <= c <= '9') || c == '_' || c == '.' || c == '-'
  }

  predicate AllAllowed(s: string) {
    forall i :: 0 <= i < |s| ==> AllowedChar(s[i])
  }

  /**
   * Whether `re.match(r"^[A-Za-z0-9_.-]+$", s)` succeeds.  The `+` needs at
   * least one character, and Python's `$` matches at the very end of the
   * string or just before a newline that ends it.
   */
  predicate MatchesIdentifierPattern(s: string) {
    (|s| > 0 && AllAllowed(s))
    || (|s| > 1 && s[|s| - 1] == '\n' && AllAllowed(s[..|s| - 1]))
  }

  // ---------------------------------------------------------------------------
  // Properties of the identifier pattern

  /** The pattern accepts exactly a non-empty run of allowed characters,
      optionally followed by one newline. */
  lemma MatchesIdentifierPatternIff(s: string)
    ensures MatchesIdentifierPattern(s)
        <==> exists body :: body != [] && AllAllowed(body) && (s == body || s == body + "\n")
  {
    if MatchesIdentifierPattern(s) {
      if !(|s| > 0 && AllAllowed(s)) {
        var body := s[..|s| - 1];
        assert s == body + "\n";
      }
    }
    if exists body :: body != [] && AllAllowed(body) && (s == body || s == body + "\n") {
      var body :| body != [] && AllAllowed(body) && (s == body || s == body + "\n");
      if s != body {
        assert s[..|s| - 1] == body;
      }
    }
  }

  /** The three corner cases of the pattern: the empty string is refused, a single
      trailing newline is let through, and a second one is not. */
  lemma IdentifierPatternCorners(name: string)
    requires name != [] && AllAllowed(name)
    ensures !MatchesIdentifierPattern("")
    ensures MatchesIdentifierPattern(name + "\n")
    ensures !MatchesIdentifierPattern(name + "\n\n")
    ensures !MatchesIdentifierPattern("\n")
  {
    var once := name + "\n";
    assert once[..|once| - 1] == name;
    var twice := name + "\n\n";
    assert twice[..|twice| - 1] == once;
    assert !AllowedChar(once[|once| - 1]);
  }

  // ---------------------------------------------------------------------------
  // Properties of strip() and lower()

  lemma StripLeftOfSpaces(s: string)
    requires AllSpace(s)
    ensures StripLeft(s) == []
  {
  }

  /** Leading whitespace does not change what lstrip() keeps. */
  lemma {:induction false} StripLeftPadding(pre: string, s: string)
    requires AllSpace(pre)
    ensures StripLeft(pre + s) == StripLeft(s)
  {
    if pre != [] {
      assert (pre + s)[0] == pre[0] && IsSpace(pre[0]);
      assert (pre + s)[1..] == pre[1..] + s;
      assert StripLeft(pre + s) == StripLeft(pre[1..] + s);
      StripLeftPadding(pre[1..], s);
    } else {
      assert pre + s == s;
    }
  }

  /** Trailing whitespace does not change what rstrip() keeps. */
  lemma {:induction false} StripRightPadding(s: string, post: string)
    requires AllSpace(post)
    ensures StripRight(s + post) == StripRight(s)
  {
    if post != [] {
      var shorter := post[..|post| - 1];
      assert (s + post)[|s + post| - 1] == post[|post| - 1] && IsSpace(post[|post| - 1]);
      assert (s + post)[..|s + post| - 1] == s + shorter;
      assert StripRight(s + post) == StripRight(s + shorter);
      StripRightPadding(s, shorter);
    } else {
      assert s + post == s;
    }
  }

  /** Whitespace appended to a string is kept by lstrip() unless the whole
      string is whitespace. */
  lemma {:induction false} StripLeftAppend(s: string, post: string)
    requires AllSpace(post)
    ensures StripLeft(s + post) == if StripLeft(s) == [] then [] else StripLeft(s) + post
  {
    if s == [] {
      assert s + post == post;
      StripLeftOfSpaces(post);
    } else if IsSpace(s[0]) {
      assert (s + post)[1..] == s[1..] + post;
      StripLeftAppend(s[1..], post);
    }
  }

  /** strip() removes exactly the whitespace around a string. */
  lemma StripPadding(pre: string, s: string, post: string)
    requires AllSpace(pre) && AllSpace(post)
    ensures Strip(pre + s + post) == Strip(s)
  {
    assert pre + s + post == pre + (s + post);
    StripLeftPadding(pre, s + post);
    StripLeftAppend(s, post);
    if StripLeft(s) != [] {
      StripRightPadding(StripLeft(s), post);
    }
  }

  /** A string that neither starts nor ends with whitespace is its own strip(). */
  lemma StripTrimmed(s: string)
    requires s == [] || (!IsSpace(s[0]) && !IsSpace(s[|s| - 1]))
    ensures Strip(s) == s
  {
  }

  lemma {:induction false} LowerAt(s: string, i: nat)
    requires i < |s|
    ensures Lower(s)[i] == LowerChar(s[i])
  {
    if i > 0 {
      LowerAt(s[1..], i - 1);
    }
  }

  lemma {:induction false} LowerDropLast(s: string)
    requires s != []
    ensures Lower(s)[..|s| - 1] == Lower(s[..|s| - 1])
  {
    if |s| > 1 {
      assert s[..|s| - 1][1..] == s[1..][..|s| - 2];
      LowerDropLast(s[1..]);
    }
  }

  lemma LowerCharKeepsSpace(c: char)
    ensures IsSpace(LowerChar(c)) <==> IsSpace(c)
  {
  }

  lemma {:induction false} StripLeftLower(s: string)
    ensures StripLeft(Lower(s)) == Lower(StripLeft(s))
  {
    if s != [] {
      var low := Lower(s);
      assert low == [LowerChar(s[0])] + Lower(s[1..]);
      LowerCharKeepsSpace(s[0]);
      if IsSpace(s[0]) {
        assert low[1..] == Lower(s[1..]);
        StripLeftLower(s[1..]);
      } else {
        assert StripLeft(low) == low;
      }
    }
  }

  lemma {:induction false} StripRightLower(s: string)
    ensures StripRight(Lower(s)) == Lower(StripRight(s))
  {
    if s != [] {
      LowerAt(s, |s| - 1);
      LowerCharKeepsSpace(s[|s| - 1]);
      if IsSpace(s[|s| - 1]) {
        LowerDropLast(s);
        StripRightLower(s[..|s| - 1]);
      }
    }
  }

  /** Lower-casing does not move whitespace, so the order of strip() and lower()
      does not matter. */
  lemma StripLowerCommute(s: string)
    ensures Lower(Strip(s)) == Strip(Lower(s))
  {
    StripLeftLower(s);
    StripRightLower(StripLeft(s));
  }
}
