/** The fragment check of the URL helper (src/UrlHelper.php, constant
    FRAGMENT_IDENTIFIER_REGEX): a fragment is one or more of an allowed
    character, an alphanumeric, or `%` followed by two hexadecimal digits,
    the fragment grammar of section 3.5 of RFC 3986 with pchar from its
    section 3.3. */
module Fragment {

  /** The punctuation in the character class `[!$&'()*+,;=._~:@\/?-]`: the
      sub-delims, the non-alphanumeric unreserved characters, ":", "@", "/" and "?". */
  const Punctuation: set<char> :=
    {'!', '$', '&', '\'', '(', ')', '*', '+', ',', ';', '=', '.', '_', '~', ':', '@', '/', '?', '-'}

  predicate IsAlnum(c: char) {
    ('a' <= c <= 'z') || ('A' <= c <= 'Z') || ('0' <= c <= '9')
  }

  predicate IsHex(c: char) {
    ('0' <= c <= '9') || ('a' <= c <= 'f') || ('A' <= c <= 'F')
  }

  predicate IsFragmentChar(c: char) {
    c in Punctuation || IsAlnum(c)
  }

  /** Zero or more tokens of the pattern's group: a single allowed character or `%HH`. */
  predicate Tokens(s: string)
    decreases |s|
  {
    || s == []
    || (IsFragmentChar(s[0]) && Tokens(s[1..]))
    || (|s| >= 3 && s[0] == '%' && IsHex(s[1]) && IsHex(s[2]) && Tokens(s[3..]))
  }

  /** The pattern as the source writes it, `/^(...)+$/`: since PCRE's `$` also
      matches before a final newline, one trailing "\n" gets through. */
  predicate PatternMatches(s: string) {
    || (s != [] && Tokens(s))
    || (|s| >= 2 && s[|s| - 1] == '\n' && Tokens(s[..|s| - 1]))
  }

  /** The check the pattern is meant to make: a non-empty sequence of tokens and
      nothing else. */
  predicate IsFragment(s: string) {
    s != [] && Tokens(s)
  }

  /** The grammar said character by character: every character is allowed or
      a `%`, and every `%` starts a `%HH` escape. */
  predicate WellEscaped(s: string) {
    forall i :: 0 <= i < |s| ==> (IsFragmentChar(s[i]) || s[i] == '%') && (s[i] == '%' ==> EscapeAt(s, i))
  }

  /** Two hexadecimal digits follow place `i`. */
  predicate EscapeAt(s: string, i: int) {
    0 <= i && i + 2 < |s| && IsHex(s[i + 1]) && IsHex(s[i + 2])
  }

  /** The token grammar and the character-by-character statement agree. */
  lemma {:induction false} TokensIff(s: string)
    ensures Tokens(s) <==> WellEscaped(s)
    decreases |s|
  {
    if s == [] {
    } else if s[0] == '%' {
      if |s| >= 3 && IsHex(s[1]) && IsHex(s[2]) {
        TokensIff(s[3..]);
        ShiftWellEscaped(s, 3);
      }
    } else if IsFragmentChar(s[0]) {
      TokensIff(s[1..]);
      ShiftWellEscaped(s, 1);
    }
  }

  /** Dropping one leading token keeps the statement, in both directions. */
  lemma ShiftWellEscaped(s: string, n: nat)
    requires || (n == 1 && |s| >= 1 && s[0] != '%' && IsFragmentChar(s[0]))
             || (n == 3 && |s| >= 3 && s[0] == '%' && IsHex(s[1]) && IsHex(s[2]))
    ensures WellEscaped(s) <==> WellEscaped(s[n..])
  {
    var t := s[n..];
    if WellEscaped(t) {
      forall i | 0 <= i < |s|
        ensures (IsFragmentChar(s[i]) || s[i] == '%') && (s[i] == '%' ==> EscapeAt(s, i))
      {
        if i >= n {
          var j := i - n;
          assert t[j] == s[i];
          if s[i] == '%' {
            assert j + 2 < |t|;
            assert t[j + 1] == s[i + 1] && t[j + 2] == s[i + 2];
          }
        }
      }
    }
    if WellEscaped(s) {
      forall j | 0 <= j < |t|
        ensures (IsFragmentChar(t[j]) || t[j] == '%') && (t[j] == '%' ==> EscapeAt(t, j))
      {
        var i := j + n;
        assert t[j] == s[i];
        if s[i] == '%' {
          assert i + 2 < |s|;
          assert t[j + 1] == s[i + 1] && t[j + 2] == s[i + 2];
        }
      }
    }
  }

  /** What the corrected check guarantees: a non-empty string of RFC 3986
      fragment characters, so neither a newline nor a `#` can reach the URL. */
  lemma FragmentIsClean(s: string)
    requires IsFragment(s)
    ensures |s| > 0 && WellEscaped(s) && '\n' !in s && '#' !in s
  {
    TokensIff(s);
  }

  /** The corrected check only refuses what the pattern lets through with a
      trailing newline. */
  lemma PatternVersusIntended(s: string)
    ensures IsFragment(s) ==> PatternMatches(s)
    ensures PatternMatches(s) && !IsFragment(s) ==> |s| >= 2 && s[|s| - 1] == '\n'
  {
  }

  /** The source's pattern accepts "a\n", which is not a fragment: PCRE's `$`
      skips the final newline. */
  lemma PatternAcceptsTrailingNewline(s: string)
    requires s == "a\n"
    ensures PatternMatches(s) && !IsFragment(s)
  {
    assert s[..1] == "a";
    assert Tokens(s[..1]) by {
      assert s[..1][1..] == [];
    }
    FragmentIsCleanContra(s);
  }

  lemma FragmentIsCleanContra(s: string)
    requires '\n' in s
    ensures !IsFragment(s)
  {
    if IsFragment(s) {
      FragmentIsClean(s);
    }
  }

  /** "" and "#" are rejected. */
  lemma RejectsEmptyAndHash(s: string)
    requires s == "" || s == "#"
    ensures !IsFragment(s) && !PatternMatches(s)
  {
    if s == "#" {
      assert !IsFragmentChar('#');
    }
  }

  /** A string of allowed characters without `%` is a fragment. */
  lemma PlainFragment(s: string)
    requires s != [] && forall i :: 0 <= i < |s| ==> IsFragmentChar(s[i])
    ensures IsFragment(s)
  {
    TokensIff(s);
  }
}
