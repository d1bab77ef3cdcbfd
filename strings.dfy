/**
 * String helpers with JavaScript semantics: `String.prototype.trim`, the
 * truthiness test `!s`, and an ASCII-only `toUpperCase`.
 */
module Strings {
  import opened Wrappers

  /** The characters `trim` removes: ECMAScript WhiteSpace and LineTerminator. */
  predicate IsWhitespace(c: char) {
    || c == ' ' || c == '\t' || c == '\n' || c == '\r'
    || c == '\U{000B}' || c == '\U{000C}' || c == '\U{00A0}' || c == '\U{1680}'
    || ('\U{2000}' <= c <= '\U{200A}')
    || c == '\U{2028}' || c == '\U{2029}' || c == '\U{202F}' || c == '\U{205F}'
    || c == '\U{3000}' || c == '\U{FEFF}'
  }

  /** Every character of `s` is whitespace (the empty string included). */
  predicate IsBlank(s: string) {
    forall i :: 0 <= i < |s| ==> IsWhitespace(s[i])
  }

  /** Drops the leading whitespace: the result is a suffix of `s`. */
  function TrimStart(s: string): (r: string)
    ensures |r| <= |s| && r == s[|s| - |r|..]
    ensures forall i :: 0 <= i < |s| - |r| ==> IsWhitespace(s[i])
    ensures r == [] || !IsWhitespace(r[0])
  {
    if s != [] && IsWhitespace(s[0]) then TrimStart(s[1..]) else s
  }

  /** Drops the trailing whitespace: the result is a prefix of `s`. */
  function TrimEnd(s: string): (r: string)
    ensures |r| <= |s| && r == s[..|r|]
    ensures forall i :: |r| <= i < |s| ==> IsWhitespace(s[i])
    ensures r == [] || !IsWhitespace(r[|r| - 1])
  {
    if s != [] && IsWhitespace(s[|s| - 1]) then TrimEnd(s[..|s| - 1]) else s
  }

  /** How many whitespace characters `trim` removes from the front of `s`. */
  function LeadingBlanks(s: string): nat {
    |s| - |TrimStart(s)|
  }

  /**
   * `s.trim()`: the contiguous middle of `s` left after removing whitespace at
   * both ends. It is empty exactly when `s` is blank, and otherwise neither
   * starts nor ends with whitespace.
   */
  function Trim(s: string): (r: string)
    ensures |r| <= |s|
    ensures LeadingBlanks(s) + |r| <= |s| && r == s[LeadingBlanks(s)..LeadingBlanks(s) + |r|]
    ensures forall i :: 0 <= i < LeadingBlanks(s) ==> IsWhitespace(s[i])
    ensures forall i :: LeadingBlanks(s) + |r| <= i < |s| ==> IsWhitespace(s[i])
    ensures r == [] <==> IsBlank(s)
    ensures r != [] ==> !IsWhitespace(r[0]) && !IsWhitespace(r[|r| - 1])
  {
    var front := TrimStart(s);
    var r := TrimEnd(front);
    PrefixOfSuffix(s, |s| - |front|, |r|);
    SuffixTail(s, front, r, IsWhitespace);
    assert r == [] ==> front == [];
    r
  }

  /** A property of the tail of a suffix is a property of the tail of the whole. */
  lemma SuffixTail<T>(s: seq<T>, front: seq<T>, r: seq<T>, p: T -> bool)
    requires |front| <= |s| && front == s[|s| - |front|..] && |r| <= |front|
    requires forall i :: |r| <= i < |front| ==> p(front[i])
    ensures forall i :: |s| - |front| + |r| <= i < |s| ==> p(s[i])
  {
    var lead := |s| - |front|;
    forall i | lead + |r| <= i < |s| ensures p(s[i]) {
      assert s[i] == front[i - lead];
    }
  }

  /** The first `n` elements of the suffix from `k` are the slice from `k` to `k + n`. */
  lemma PrefixOfSuffix<T>(s: seq<T>, k: nat, n: nat)
    requires k + n <= |s|
    ensures s[k..][..n] == s[k..k + n]
  {
  }

  /** The truthiness test on an optional string: defined and not empty. */
  predicate IsSet(s: Option<string>) {
    s.Some? && s.value != ""
  }

  /** ASCII upper-casing of one character; every other character is kept. */
  function UpperChar(c: char): (u: char)
    ensures 'a' <= c <= 'z' ==> u as int == c as int - 32
    ensures !('a' <= c <= 'z') ==> u == c
  {
    if 'a' <= c <= 'z' then (c as int - 32) as char else c
  }

  /** `toUpperCase` restricted to ASCII letters: same length, character by character. */
  function Upper(s: string): (u: string)
    ensures |u| == |s|
    ensures forall i :: 0 <= i < |s| ==> u[i] == UpperChar(s[i])
  {
    if s == [] then [] else [UpperChar(s[0])] + Upper(s[1..])
  }
}
