/** String helpers standing for the JavaScript string built-ins the source calls. */
module Text {

  /** `t` occurs in `s` starting at index `k`. */
  predicate IsPrefixAt(s: string, k: nat, t: string)
  {
    k + |t| <= |s| && s[k..k + |t|] == t
  }

  predicate StartsWith(s: string, t: string)
  {
    IsPrefixAt(s, 0, t)
  }

  /** An occurrence of `t` in `s` is also an occurrence of every prefix of `t`. */
  lemma PrefixOfOccurrence(s: string, k: nat, t: string, u: string)
    requires IsPrefixAt(s, k, t)
    requires |u| <= |t| && t[..|u|] == u
    ensures IsPrefixAt(s, k, u)
  {
    assert s[k..k + |u|] == s[k..k + |t|][..|u|];
  }

  /** Occurrences are not disturbed by text added in front or behind. */
  lemma PrefixAtShift(a: string, b: string, c: string, k: nat, t: string)
    requires IsPrefixAt(b, k, t)
    ensures IsPrefixAt(a + b + c, |a| + k, t)
  {
    assert (a + b + c)[|a| + k..|a| + k + |t|] == b[k..k + |t|];
  }

  /** `String.prototype.includes`, searching from index `from` on. */
  function ContainsFrom(s: string, t: string, from: nat): (r: bool)
    requires from <= |s|
    ensures r <==> exists k :: from <= k <= |s| && IsPrefixAt(s, k, t)
    decreases |s| - from
  {
    if IsPrefixAt(s, from, t) then true
    else if from == |s| then false
    else ContainsFrom(s, t, from + 1)
  }

  function Contains(s: string, t: string): (r: bool)
    ensures r <==> exists k :: 0 <= k <= |s| && IsPrefixAt(s, k, t)
  {
    ContainsFrom(s, t, 0)
  }

  /**
   * `toLowerCase` on one character, for the Basic Latin and the basic Cyrillic
   * capitals (U+0400 to U+042F); every other character is returned unchanged.
   */
  function LowerChar(c: char): (r: char)
    ensures IsUpper(c) ==> r != c
    ensures !IsUpper(c) ==> r == c
    ensures !IsUpper(r)
  {
    if 'A' <= c <= 'Z' then (c as int + 32) as char
    else if '\U{0410}' <= c <= '\U{042F}' then (c as int + 32) as char
    else if '\U{0400}' <= c <= '\U{040F}' then (c as int + 80) as char
    else c
  }

  predicate IsUpper(c: char)
  {
    'A' <= c <= 'Z' || '\U{0400}' <= c <= '\U{042F}'
  }

  /** `toLowerCase`, character by character. */
  function Lower(s: string): (r: string)
    ensures |r| == |s|
  {
    if s == [] then [] else [LowerChar(s[0])] + Lower(s[1..])
  }

  lemma {:induction false} LowerPointwise(s: string)
    ensures forall i :: 0 <= i < |s| ==> Lower(s)[i] == LowerChar(s[i])
  {
    if s != [] {
      LowerPointwise(s[1..]);
    }
  }

  /** Lower-casing twice is lower-casing once: the result has no capitals left. */
  lemma LowerIdempotent(s: string)
    ensures Lower(Lower(s)) == Lower(s)
    ensures forall i :: 0 <= i < |s| ==> !IsUpper(Lower(s)[i])
  {
    LowerPointwise(s);
    LowerPointwise(Lower(s));
  }

  /** `Array.prototype.join(sep)` on strings. */
  function Join(parts: seq<string>, sep: string): (r: string)
    ensures parts == [] ==> r == ""
    ensures |parts| == 1 ==> r == parts[0]
  {
    if parts == [] then ""
    else if |parts| == 1 then parts[0]
    else parts[0] + sep + Join(parts[1..], sep)
  }

  /** `String.prototype.substring(0, n)` for non-negative `n`. */
  function Truncate(s: string, n: nat): (r: string)
    ensures |r| <= n && |r| <= |s|
    ensures |r| == if |s| <= n then |s| else n
    ensures r == s[..|r|]
  {
    if |s| <= n then s else s[..n]
  }
}
