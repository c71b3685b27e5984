/** The optional value the mail core returns where Python returns `None`. */
module Options {

  datatype Option<+T> = None | Some(value: T) {

    /** `x or default` for an optional string, and `.get(key, default)` in general. */
    function GetOr(default: T): T {
      match this
      case Some(v) => v
      case None => default
    }
  }
}

/**
 * The string operations of Python that the mail core relies on, restricted to
 * ASCII: `str.lower`, `str.strip`, `str.startswith` and the `in` test for
 * substrings.
 */
module Text {

  /** The ASCII characters that `str.strip()` removes and that the regex class `\s` matches. */
  const Whitespace: set<char> :=
    {' ', '\t', '\n', '\r', '\U{0b}', '\U{0c}', '\U{1c}', '\U{1d}', '\U{1e}', '\U{1f}'}

  function LowerChar(c: char): char {
    if 'A' <= c <= 'Z' then (c as int + 32) as char else c
  }

  /** `s.lower()` on ASCII text. */
  function Lower(s: string): string {
    seq(|s|, i requires 0 <= i < |s| => LowerChar(s[i]))
  }

  /** Lowercasing twice is lowercasing once. */
  lemma LowerTwice(s: string)
    ensures Lower(Lower(s)) == Lower(s)
  {
  }

  /** Lowercasing a prefix is taking the prefix of the lowercased string. */
  lemma LowerPrefix(s: string, n: nat)
    requires n <= |s|
    ensures Lower(s)[..n] == Lower(s[..n])
  {
  }

  predicate StartsWith(s: string, prefix: string) {
    |prefix| <= |s| && s[..|prefix|] == prefix
  }

  /** `needle` sits in `haystack` starting at index `i`. */
  predicate OccursAt(haystack: string, needle: string, i: nat) {
    i + |needle| <= |haystack| && haystack[i..i + |needle|] == needle
  }

  /** Python's `needle in haystack` for strings. */
  predicate Contains(haystack: string, needle: string) {
    exists i: nat :: i <= |haystack| && OccursAt(haystack, needle, i)
  }

  /** `s.lstrip(chars)`: the longest suffix of `s` that does not start with one of `chars`. */
  function TrimStart(s: string, chars: set<char>): (r: string)
    ensures |r| <= |s| && r == s[|s| - |r|..]
    ensures forall k :: 0 <= k < |s| - |r| ==> s[k] in chars
    ensures r == [] || r[0] !in chars
  {
    if s != [] && s[0] in chars then TrimStart(s[1..], chars) else s
  }

  /** `s.rstrip(chars)`: the longest prefix of `s` that does not end with one of `chars`. */
  function TrimEnd(s: string, chars: set<char>): (r: string)
    ensures |r| <= |s| && r == s[..|r|]
    ensures forall k :: |r| <= k < |s| ==> s[k] in chars
    ensures r == [] || r[|r| - 1] !in chars
  {
    if s != [] && s[|s| - 1] in chars then TrimEnd(s[..|s| - 1], chars) else s
  }

  /** `s.strip(chars)`; `s.strip()` is `Strip(s, Whitespace)`. */
  function Strip(s: string, chars: set<char>): (r: string)
    ensures |r| <= |s|
    ensures r == [] || (r[0] !in chars && r[|r| - 1] !in chars)
    ensures exists i, j :: 0 <= i <= j <= |s| && r == s[i..j] &&
              (forall k :: 0 <= k < i ==> s[k] in chars) &&
              (forall k :: j <= k < |s| ==> s[k] in chars)
  {
    var t := TrimStart(s, chars);
    var r := TrimEnd(t, chars);
    TrimmedSlice(s, chars, t, r);
    r
  }

  /**
   * Trimming the front of `s` to `t` and then the back of `t` to `r` leaves a
   * slice of `s` with only characters of `chars` removed around it.
   */
  lemma TrimmedSlice(s: string, chars: set<char>, t: string, r: string)
    requires |t| <= |s| && t == s[|s| - |t|..] && (forall k :: 0 <= k < |s| - |t| ==> s[k] in chars)
    requires |r| <= |t| && r == t[..|r|] && (forall k :: |r| <= k < |t| ==> t[k] in chars)
    ensures var i := |s| - |t|;
      r == s[i..i + |r|] && (forall k :: i + |r| <= k < |s| ==> s[k] in chars)
  {
    var i := |s| - |t|;
    forall k | i + |r| <= k < |s|
      ensures s[k] in chars
    {
      assert s[k] == t[k - i];
    }
  }

  /** Stripping leaves a string alone when neither end holds a character to strip. */
  lemma StripUnchanged(s: string, chars: set<char>)
    requires s == [] || (s[0] !in chars && s[|s| - 1] !in chars)
    ensures Strip(s, chars) == s
  {
  }

  /** Stripping removes a padding made only of stripped characters, and nothing of what it pads. */
  lemma {:induction false} StripPadding(left: string, core: string, right: string, chars: set<char>)
    requires forall c :: c in left ==> c in chars
    requires forall c :: c in right ==> c in chars
    requires core != [] && core[0] !in chars && core[|core| - 1] !in chars
    ensures Strip(left + core + right, chars) == core
  {
    assert left + core + right == left + (core + right);
    TrimStartPadding(left, core + right, chars);
    TrimEndPadding(core, right, chars);
  }

  lemma {:induction false} TrimStartPadding(left: string, rest: string, chars: set<char>)
    requires forall c :: c in left ==> c in chars
    requires rest != [] && rest[0] !in chars
    ensures TrimStart(left + rest, chars) == rest
  {
    if left != [] {
      assert (left + rest)[1..] == left[1..] + rest;
      TrimStartPadding(left[1..], rest, chars);
    }
  }

  lemma {:induction false} TrimEndPadding(core: string, right: string, chars: set<char>)
    requires forall c :: c in right ==> c in chars
    requires core != [] && core[|core| - 1] !in chars
    ensures TrimEnd(core + right, chars) == core
  {
    if right != [] {
      assert (core + right)[..|core + right| - 1] == core + right[..|right| - 1];
      TrimEndPadding(core, right[..|right| - 1], chars);
    }
  }

  /** Containment is transitive: a haystack holding `a` holds everything `a` holds. */
  lemma ContainsTransitive(haystack: string, a: string, b: string)
    requires Contains(haystack, a) && Contains(a, b)
    ensures Contains(haystack, b)
  {
    var i: nat :| i <= |haystack| && OccursAt(haystack, a, i);
    var j: nat :| j <= |a| && OccursAt(a, b, j);
    forall k | 0 <= k < |b|
      ensures haystack[i + j + k] == b[k]
    {
      assert haystack[i..i + |a|][j + k] == a[j + k];
      assert a[j..j + |b|][k] == b[k];
    }
    assert haystack[i + j..i + j + |b|] == b;
    assert OccursAt(haystack, b, i + j);
  }
}
