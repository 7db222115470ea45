/** The PHP string built-ins the helpers rely on, stated over `string`, where
    each character stands for one byte of a PHP string. */
module PhpText {

  /** PHP's `empty()` on a string: true for "" and for "0". */
  predicate IsEmpty(s: string) {
    s == "" || s == "0"
  }

  predicate StartsWith(s: string, prefix: string) {
    |prefix| <= |s| && s[..|prefix|] == prefix
  }

  predicate EndsWith(s: string, suffix: string) {
    |suffix| <= |s| && s[|s| - |suffix|..] == suffix
  }

  /** PCRE's `$` without the D modifier: the pattern `tail$` matches at the end
      of `s` when `s` ends with `tail`, or with `tail` followed by one final newline. */
  predicate EndsWithBeforeFinalNewline(s: string, tail: string) {
    EndsWith(s, tail) || EndsWith(s, tail + "\n")
  }

  /** `ltrim($s, $chars)`: drops the leading characters that are in `chars`. */
  function LTrim(s: string, chars: set<char>): (r: string)
    ensures |r| <= |s| && r == s[|s| - |r|..]
    ensures r == [] || r[0] !in chars
    ensures forall i :: 0 <= i < |s| - |r| ==> s[i] in chars
  {
    if s != [] && s[0] in chars then LTrim(s[1..], chars) else s
  }

  /** `rtrim($s, $chars)`: drops the trailing characters that are in `chars`. */
  function RTrim(s: string, chars: set<char>): (r: string)
    ensures |r| <= |s| && r == s[..|r|]
    ensures r == [] || r[|r| - 1] !in chars
    ensures forall i :: |r| <= i < |s| ==> s[i] in chars
  {
    if s != [] && s[|s| - 1] in chars then RTrim(s[..|s| - 1], chars) else s
  }

  /** The characters PHP's `trim()` strips by default: " \t\n\r\0\x0B". */
  const Whitespace: set<char> := {' ', '\t', '\n', '\r', '\0', 11 as char}

  /** `trim($s)` with the default character list. */
  function Trim(s: string): (r: string)
    ensures r == [] || (r[0] !in Whitespace && r[|r| - 1] !in Whitespace)
  {
    LTrim(RTrim(s, Whitespace), Whitespace)
  }

  /** The first element of `explode($sep, $s)`: everything before the first `sep`. */
  function BeforeFirst(s: string, sep: char): (r: string)
    ensures StartsWith(s, r) && sep !in r
    ensures |r| < |s| ==> s[|r|] == sep
  {
    if s == [] || s[0] == sep then [] else [s[0]] + BeforeFirst(s[1..], sep)
  }

  /** The index of the first character of `s` that is in `chars`, or `|s|`. */
  function IndexOfAny(s: string, chars: set<char>): (i: nat)
    ensures i <= |s|
    ensures i < |s| ==> s[i] in chars
    ensures forall j :: 0 <= j < i ==> s[j] !in chars
  {
    if s == [] || s[0] in chars then 0 else 1 + IndexOfAny(s[1..], chars)
  }

  /** Cutting at a separator that is not in `m` gives back `m`, whatever follows. */
  lemma {:induction false} BeforeFirstOfJoin(m: string, sep: char, rest: string)
    ensures BeforeFirst(m + [sep] + rest, sep) == BeforeFirst(m, sep)
  {
    if m == [] {
    } else if m[0] == sep {
      assert (m + [sep] + rest)[0] == sep;
    } else {
      assert (m + [sep] + rest)[1..] == m[1..] + [sep] + rest;
      BeforeFirstOfJoin(m[1..], sep, rest);
    }
  }

  /** The first piece ends at the first separator. */
  lemma {:induction false} BeforeFirstAt(s: string, sep: char, i: nat)
    requires i < |s| && s[i] == sep && sep !in s[..i]
    ensures BeforeFirst(s, sep) == s[..i]
  {
    if i > 0 {
      assert s[0] == s[..i][0];
      assert s[1..][..i - 1] == s[1..i];
      BeforeFirstAt(s[1..], sep, i - 1);
    }
  }

  /** A string without the separator is its own first piece. */
  lemma {:induction false} BeforeFirstWhole(s: string, sep: char)
    requires sep !in s
    ensures BeforeFirst(s, sep) == s
  {
    if s != [] {
      assert sep !in s[1..];
      BeforeFirstWhole(s[1..], sep);
    }
  }
}
