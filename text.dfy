/** The usual optional-value wrapper. */
module Wrappers {
  datatype Option<+T> = None | Some(value: T)
}

/**
 * Character classes and string helpers with the meaning Python gives them:
 * `str.isspace()` / the `re` class `\s` on `str` patterns, `str.strip()`,
 * and the case-insensitive comparison of `re.IGNORECASE` for the lower-case
 * ASCII literals the section headers are made of.
 */
module Text {

  /** The whitespace set of Python's `str.isspace()`, which is also what `\s` matches in a `str` pattern. */
  predicate IsSpace(c: char) {
    || ('\t' <= c <= '\r')
    || ('\U{1C}' <= c <= ' ')
    || c == '\U{85}' || c == '\U{A0}' || c == '\U{1680}'
    || ('\U{2000}' <= c <= '\U{200A}')
    || c == '\U{2028}' || c == '\U{2029}' || c == '\U{202F}' || c == '\U{205F}' || c == '\U{3000}'
  }

  predicate AllSpace(s: string) {
    forall i :: 0 <= i < |s| ==> IsSpace(s[i])
  }

  /** No whitespace at either end: what `str.strip()` always returns. */
  predicate IsTrimmed(s: string) {
    |s| == 0 || (!IsSpace(s[0]) && !IsSpace(s[|s| - 1]))
  }

  /**
   * Python's `str.strip()` with no argument: the text between the leading and
   * the trailing whitespace run.
   */
  function Strip(s: string): (r: string)
    ensures IsTrimmed(r) && |r| <= |s|
  {
    var a := SkipSpace(s, 0);
    s[a..SkipSpaceBack(s, a, |s|)]
  }

  /** `r` is `s` with `i` whitespace characters cut from its front and only whitespace cut from its back. */
  predicate CutFrom(s: string, r: string, i: nat) {
    && i + |r| <= |s|
    && r == s[i..i + |r|]
    && AllSpace(s[..i])
    && AllSpace(s[i + |r|..])
  }

  /** What `strip` keeps of `s` is `s` less a whitespace prefix and a whitespace suffix. */
  lemma StripCuts(s: string)
    ensures exists i :: CutFrom(s, Strip(s), i)
  {
    var a := SkipSpace(s, 0);
    var b := SkipSpaceBack(s, a, |s|);
    forall k | 0 <= k < a ensures IsSpace(s[..a][k]) {
      assert SpaceAt(s, k);
    }
    forall k | 0 <= k < |s| - b ensures IsSpace(s[b..][k]) {
      assert SpaceAt(s, b + k);
    }
    assert CutFrom(s, Strip(s), a);
  }

  /** Stripping a trimmed string changes nothing. */
  lemma StripTrimmed(s: string)
    requires IsTrimmed(s)
    ensures Strip(s) == s
  {
    if |s| > 0 {
      assert SkipSpace(s, 0) == 0;
      assert SkipSpaceBack(s, 0, |s|) == |s|;
    }
  }

  /** Stripping removes exactly the whitespace that follows a non-empty trimmed text. */
  lemma StripTrailingSpace(s: string, w: string)
    requires IsTrimmed(s) && |s| > 0 && AllSpace(w)
    ensures Strip(s + w) == s
  {
    var t := s + w;
    assert t[0] == s[0];
    assert SkipSpace(t, 0) == 0;
    SpaceBackTo(t, |s|, |t|);
    assert t[..|s|] == s;
  }

  /** Scanning back over whitespace from `j` stops just after the non-space character at `m - 1`. */
  lemma {:induction false} SpaceBackTo(t: string, m: nat, j: nat)
    requires 0 < m <= j <= |t| && !IsSpace(t[m - 1])
    requires forall k :: m <= k < j ==> IsSpace(t[k])
    ensures SkipSpaceBack(t, 0, j) == m
    decreases j
  {
    if j > m {
      SpaceBackTo(t, m, j - 1);
    }
  }

  /** Whitespace alone strips to nothing. */
  lemma StripAllSpace(w: string)
    requires AllSpace(w)
    ensures Strip(w) == ""
  {
    SkipAllSpace(w, 0);
  }

  lemma {:induction false} SkipAllSpace(w: string, i: nat)
    requires i <= |w| && AllSpace(w)
    ensures SkipSpace(w, i) == |w|
    decreases |w| - i
  {
    if i < |w| {
      SkipAllSpace(w, i + 1);
    }
  }

  predicate IsAsciiLower(c: char) {
    'a' <= c <= 'z'
  }

  function AsciiUpper(c: char): (u: char)
    requires IsAsciiLower(c)
    ensures 'A' <= u <= 'Z'
  {
    (c as int - 32) as char
  }

  /**
   * `re.IGNORECASE` on a `str` pattern, for a pattern character `p` given in
   * lower case: a character matches when its lower case is `p`, which adds the
   * upper-case ASCII letter and U+0130 for `i`; Python's extra equivalence
   * classes add U+0131 to `i` and U+017F to `s`.
   */
  predicate CharMatchesI(c: char, p: char) {
    || c == p
    || (IsAsciiLower(p) && c == AsciiUpper(p))
    || (p == 'i' && (c == '\U{130}' || c == '\U{131}'))
    || (p == 's' && c == '\U{17F}')
  }

  /** Character `j` of the literal `lit`: the term on which `MatchesAt` hangs its facts. */
  function LitChar(lit: string, j: nat): char
    requires j < |lit|
  {
    lit[j]
  }

  /**
   * The literal `lit` (lower case) matches case-insensitively at position `i`
   * of `s`. Its facts about single characters are brought in only where a
   * proof names `LitChar(lit, j)`.
   */
  predicate MatchesAt(s: string, i: nat, lit: string) {
    i + |lit| <= |s| && forall j {:trigger LitChar(lit, j)} :: 0 <= j < |lit| ==> CharMatchesI(s[i + j], LitChar(lit, j))
  }

  /** Position `k` of `s` holds whitespace. */
  predicate SpaceAt(s: string, k: nat)
    requires k < |s|
  {
    IsSpace(s[k])
  }

  /** Greedy `\s*` from `i`: the end of the whitespace run that starts there. */
  function SkipSpace(s: string, i: nat): (j: nat)
    requires i <= |s|
    ensures i <= j <= |s|
    ensures forall k :: i <= k < j ==> SpaceAt(s, k)
    ensures j == |s| || !IsSpace(s[j])
    decreases |s| - i
  {
    if i < |s| && IsSpace(s[i]) then SkipSpace(s, i + 1) else i
  }

  /** Greedy `\s*` backwards from `j`, not below `i`: the start of the whitespace run that ends at `j`. */
  function SkipSpaceBack(s: string, i: nat, j: nat): (r: nat)
    requires i <= j <= |s|
    ensures i <= r <= j
    ensures forall k :: r <= k < j ==> SpaceAt(s, k)
    ensures r == i || !IsSpace(s[r - 1])
    decreases j - i
  {
    if i < j && IsSpace(s[j - 1]) then SkipSpaceBack(s, i, j - 1) else j
  }
}
