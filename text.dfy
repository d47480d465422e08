/**
 * The string operations that the serial-line parser and the store rely on:
 * Python's `str.strip()`, `s.split(" ")[0]`, `s.split(":", 1)`, the
 * substring test `p in s`, and SQLite's BINARY ordering of TEXT values.
 */
module Text {
  import opened Wrappers

  /** Python's `str.isspace()` for one character (the characters `str.strip()` removes). */
  predicate IsSpace(c: char) {
    c == ' ' || ('\t' <= c <= '\r') || ('\U{1C}' <= c <= '\U{1F}') ||
    c == '\U{85}' || c == '\U{A0}' || c == '\U{1680}' || ('\U{2000}' <= c <= '\U{200A}') ||
    c == '\U{2028}' || c == '\U{2029}' || c == '\U{202F}' || c == '\U{205F}' || c == '\U{3000}'
  }

  /** `s.lstrip()`: the suffix of `s` left after removing its leading whitespace. */
  function StripStart(s: string): string {
    if s != [] && IsSpace(s[0]) then StripStart(s[1..]) else s
  }

  /** `s.rstrip()`: the prefix of `s` left after removing its trailing whitespace. */
  function StripEnd(s: string): string {
    if s != [] && IsSpace(s[|s| - 1]) then StripEnd(s[..|s| - 1]) else s
  }

  /** `s.strip()`. */
  function Strip(s: string): string {
    StripEnd(StripStart(s))
  }

  /** `s.split(" ")[0]`: everything before the first space (all of `s` when it has none). */
  function FirstToken(s: string): (r: string)
    ensures |r| <= |s| && r == s[..|r|]
    ensures ' ' !in r
    ensures |r| < |s| ==> s[|r|] == ' '
  {
    if s == [] || s[0] == ' ' then [] else [s[0]] + FirstToken(s[1..])
  }

  /** The position of the first occurrence of `c` in `s` (`s.index(c)`), or `None`. */
  function IndexOf(s: string, c: char): (r: Option<nat>)
    ensures r.None? <==> c !in s
    ensures r.Some? ==> r.value < |s| && s[r.value] == c && c !in s[..r.value]
  {
    if s == [] then None
    else if s[0] == c then Some(0)
    else match IndexOf(s[1..], c)
      case None => None
      case Some(k) => Some(k + 1)
  }

  /** `s.split(c, 1)` when `c in s`: the text before the first `c` and the text after it. */
  function SplitFirst(s: string, c: char): (r: Option<(string, string)>)
  {
    match IndexOf(s, c)
    case None => None
    case Some(k) => Some((s[..k], s[k + 1..]))
  }

  /** Python's `p in s` on strings: `p` occurs in `s` as a contiguous piece. */
  predicate Contains(s: string, p: string) {
    exists i :: 0 <= i <= |s| - |p| && OccursAt(s, p, i)
  }

  /** The piece of `s` of length `|p|` at position `i` is `p`. */
  predicate OccursAt(s: string, p: string, i: int) {
    0 <= i && i + |p| <= |s| && s[i..i + |p|] == p
  }

  /**
   * SQLite's comparison `a < b` of two TEXT values under the BINARY collation:
   * memcmp of the UTF-8 encodings, a proper prefix being smaller. UTF-8
   * preserves code-point order, so comparing characters gives the same answer.
   */
  function LexLess(a: string, b: string): bool {
    if a == [] then b != []
    else if b == [] then false
    else if a[0] != b[0] then a[0] < b[0]
    else LexLess(a[1..], b[1..])
  }

  // ----- properties -----

  /** `lstrip()` removes exactly the leading whitespace: what it keeps is a suffix that does not start with whitespace. */
  lemma {:induction false} StripStartSpec(s: string)
    ensures |StripStart(s)| <= |s| && StripStart(s) == s[|s| - |StripStart(s)|..]
    ensures forall k :: 0 <= k < |s| - |StripStart(s)| ==> IsSpace(s[k])
    ensures StripStart(s) != [] ==> !IsSpace(StripStart(s)[0])
  {
    if s != [] && IsSpace(s[0]) {
      StripStartSpec(s[1..]);
    }
  }

  /** `rstrip()` removes exactly the trailing whitespace: what it keeps is a prefix that does not end with whitespace. */
  lemma {:induction false} StripEndSpec(s: string)
    ensures |StripEnd(s)| <= |s| && StripEnd(s) == s[..|StripEnd(s)|]
    ensures forall k :: |StripEnd(s)| <= k < |s| ==> IsSpace(s[k])
    ensures StripEnd(s) != [] ==> !IsSpace(StripEnd(s)[|StripEnd(s)| - 1])
  {
    if s != [] && IsSpace(s[|s| - 1]) {
      StripEndSpec(s[..|s| - 1]);
    }
  }

  /** `split(c, 1)` is undone by joining the two parts with `c`, and the first part holds no `c`. */
  lemma SplitFirstRoundTrip(s: string, c: char)
    ensures SplitFirst(s, c).None? <==> c !in s
    ensures SplitFirst(s, c).Some? ==>
      var (key, val) := SplitFirst(s, c).value;
      key + [c] + val == s && c !in key
  {
    if c in s {
      var k := IndexOf(s, c).value;
      assert s[..k] + [c] + s[k + 1..] == s;
    }
  }

  /** Splitting `key + [c] + rest` on its first `c` gives back `key` and `rest` whenever `key` holds no `c`. */
  lemma SplitAt(key: string, rest: string, c: char)
    requires c !in key
    ensures SplitFirst(key + [c] + rest, c) == Some((key, rest))
  {
    var line := key + [c] + rest;
    assert line[..|key|] == key;
    assert line[|key| + 1..] == rest;
    assert c in line by { assert line[|key|] == c; }
    assert IndexOf(line, c) == Some(|key|);
  }

  /** Every character of a piece that `s` contains is a character of `s`. */
  lemma ContainsChars(s: string, p: string, x: char)
    requires Contains(s, p) && x in p
    ensures x in s
  {
    var i :| 0 <= i <= |s| - |p| && OccursAt(s, p, i);
    var k :| 0 <= k < |p| && p[k] == x;
    assert s[i + k] == s[i..i + |p|][k];
  }

  /** Every string contains itself. */
  lemma ContainsSelf(s: string)
    ensures Contains(s, s)
  {
    assert OccursAt(s, s, 0);
  }

  /** A string that neither starts nor ends with whitespace is left alone by `strip()`. */
  lemma StripPlain(s: string)
    requires s == [] || (!IsSpace(s[0]) && !IsSpace(s[|s| - 1]))
    ensures Strip(s) == s
  {
    assert StripStart(s) == s;
  }

  /** The BINARY order is transitive. */
  lemma {:induction false} LexLessTransitive(a: string, b: string, c: string)
    requires LexLess(a, b) && LexLess(b, c)
    ensures LexLess(a, c)
  {
    if a != [] && b != [] && c != [] && a[0] == b[0] && b[0] == c[0] {
      LexLessTransitive(a[1..], b[1..], c[1..]);
    }
  }
}
