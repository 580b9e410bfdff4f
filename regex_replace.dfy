/**
 * `String.prototype.replace` with a non-global regular expression of the form
 * /open.*?close/, where `open` and `close` are literal text: the leftmost match
 * is replaced, nothing else changes. `.` does not match a line terminator and
 * `*?` is lazy, so a match starting at `i` ends at the first `close` reached
 * without crossing a line terminator (ECMA-262, section 22.2).
 */
module RegexReplace {
  import opened Wrappers
  import opened Text

  /** The pattern /open.*?close/. */
  datatype Pattern = Pattern(open: string, close: string)

  /** The four characters `.` does not match. */
  predicate IsLineTerminator(c: char)
  {
    c == '\n' || c == '\r' || c == '\U{2028}' || c == '\U{2029}'
  }

  ghost predicate LineFree(s: string, lo: nat, hi: nat)
    requires lo <= hi <= |s|
  {
    forall k :: lo <= k < hi ==> !IsLineTerminator(s[k])
  }

  /**
   * `s[i..e]` is what the pattern matches when the engine tries index `i`:
   * `open` at `i`, a line-free middle, `close` ending at `e`, and no earlier
   * `close` in the middle (the lazy quantifier stops at the first one).
   */
  ghost predicate IsMatch(s: string, p: Pattern, i: nat, e: nat)
  {
    && i + |p.open| + |p.close| <= e <= |s|
    && IsPrefixAt(s, i, p.open)
    && IsPrefixAt(s, e - |p.close|, p.close)
    && LineFree(s, i + |p.open|, e - |p.close|)
    && forall j :: i + |p.open| <= j < e - |p.close| ==> !IsPrefixAt(s, j, p.close)
  }

  /** The match that `replace` rewrites: no match starts further left. */
  ghost predicate IsFirstMatch(s: string, p: Pattern, i: nat, e: nat)
  {
    IsMatch(s, p, i, e) && forall i': nat, e': nat :: i' < i ==> !IsMatch(s, p, i', e')
  }

  /** At one start index there is at most one match. */
  lemma MatchEndUnique(s: string, p: Pattern, i: nat, e1: nat, e2: nat)
    requires IsMatch(s, p, i, e1) && IsMatch(s, p, i, e2)
    ensures e1 == e2
  {
  }

  /** The first `close` at or after `j` reached without crossing a line terminator. */
  function CloseFrom(s: string, p: Pattern, j: nat): (r: Option<nat>)
    requires j <= |s|
    ensures r.Some? ==> j <= r.value <= |s| && IsPrefixAt(s, r.value, p.close) && LineFree(s, j, r.value)
    ensures r.Some? ==> forall k :: j <= k < r.value ==> !IsPrefixAt(s, k, p.close)
    ensures r.None? ==> forall k :: j <= k <= |s| && LineFree(s, j, k) ==> !IsPrefixAt(s, k, p.close)
    decreases |s| - j
  {
    if IsPrefixAt(s, j, p.close) then Some(j)
    else if j == |s| || IsLineTerminator(s[j]) then None
    else CloseFrom(s, p, j + 1)
  }

  /** The end of the match the engine finds when it tries index `i`, if any. */
  function MatchAt(s: string, p: Pattern, i: nat): (r: Option<nat>)
    requires i <= |s|
    ensures r.Some? ==> IsMatch(s, p, i, r.value)
    ensures r.None? ==> forall e :: !IsMatch(s, p, i, e)
  {
    if !IsPrefixAt(s, i, p.open) then None
    else match CloseFrom(s, p, i + |p.open|)
      case Some(j) => Some(j + |p.close|)
      case None => None
  }

  /** The engine's scan: the first start index at or after `from` that yields a match. */
  function FirstMatchFrom(s: string, p: Pattern, from: nat): (r: Option<(nat, nat)>)
    requires from <= |s|
    ensures r.Some? ==> from <= r.value.0 && IsMatch(s, p, r.value.0, r.value.1)
    ensures r.Some? ==> forall i: nat, e: nat :: from <= i < r.value.0 ==> !IsMatch(s, p, i, e)
    ensures r.None? ==> forall i: nat, e: nat :: from <= i ==> !IsMatch(s, p, i, e)
    decreases |s| - from
  {
    match MatchAt(s, p, from)
    case Some(e) => Some((from, e))
    case None =>
      if from == |s| then
        assert forall i, e :: from < i ==> !IsMatch(s, p, i, e);
        None
      else FirstMatchFrom(s, p, from + 1)
  }

  /**
   * `s.replace(/open.*?close/, tag)` when the replacement is inserted literally:
   * the first match becomes `tag`, the text before and after it is kept, and a
   * text without a match is returned unchanged.
   */
  function ReplaceFirst(s: string, p: Pattern, tag: string): (r: string)
    ensures (forall i: nat, e: nat :: !IsMatch(s, p, i, e)) ==> r == s
    ensures forall i: nat, e: nat :: IsFirstMatch(s, p, i, e) ==> r == s[..i] + tag + s[e..]
  {
    match FirstMatchFrom(s, p, 0)
    case None => s
    case Some((i, e)) =>
      assert IsFirstMatch(s, p, i, e);
      forall i', e' | IsFirstMatch(s, p, i', e') ensures i' == i && e' == e {
        MatchEndUnique(s, p, i, e, e');
      }
      s[..i] + tag + s[e..]
  }

  /**
   * The replacement string as `replace` really reads it (GetSubstitution,
   * ECMA-262 section 22.1.3.19.1, for a pattern without capture groups):
   * `$$` is `$`, `$&` the matched text, `` $` `` the text before the match,
   * `$'` the text after it; any other `$` stands for itself.
   */
  function Substitute(tag: string, s: string, i: nat, e: nat): string
    requires i <= e <= |s|
    decreases |tag|
  {
    if tag == [] then []
    else if tag[0] == '$' && |tag| >= 2 && tag[1] == '$' then "$" + Substitute(tag[2..], s, i, e)
    else if tag[0] == '$' && |tag| >= 2 && tag[1] == '&' then s[i..e] + Substitute(tag[2..], s, i, e)
    else if tag[0] == '$' && |tag| >= 2 && tag[1] == '`' then s[..i] + Substitute(tag[2..], s, i, e)
    else if tag[0] == '$' && |tag| >= 2 && tag[1] == '\'' then s[e..] + Substitute(tag[2..], s, i, e)
    else [tag[0]] + Substitute(tag[1..], s, i, e)
  }

  /** A replacement string without `$` is inserted literally. */
  lemma {:induction false} SubstituteNoDollar(tag: string, s: string, i: nat, e: nat)
    requires i <= e <= |s|
    requires forall k :: 0 <= k < |tag| ==> tag[k] != '$'
    ensures Substitute(tag, s, i, e) == tag
    decreases |tag|
  {
    if tag != [] {
      SubstituteNoDollar(tag[1..], s, i, e);
      assert tag == [tag[0]] + tag[1..];
    }
  }

  /** A `$`-free front part of the replacement string is copied as it is. */
  lemma {:induction false} SubstituteLiteralFront(a: string, b: string, s: string, i: nat, e: nat)
    requires i <= e <= |s|
    requires forall k :: 0 <= k < |a| ==> a[k] != '$'
    ensures Substitute(a + b, s, i, e) == a + Substitute(b, s, i, e)
    decreases |a|
  {
    if a != [] {
      assert (a + b)[1..] == a[1..] + b;
      SubstituteLiteralFront(a[1..], b, s, i, e);
      assert a == [a[0]] + a[1..];
    } else {
      assert a + b == b;
    }
  }

  /** `$&` in the replacement string stands for the matched text. */
  lemma SubstituteMatched(rest: string, s: string, i: nat, e: nat)
    requires i <= e <= |s|
    ensures Substitute("$&" + rest, s, i, e) == s[i..e] + Substitute(rest, s, i, e)
  {
    var tag := "$&" + rest;
    assert tag[0] == '$' && tag[1] == '&' && tag[2..] == rest;
  }

  /** `s.replace(/open.*?close/, tag)` as the source calls it, with `$` patterns in `tag` expanded. */
  function ReplaceFirstAsWritten(s: string, p: Pattern, tag: string): (r: string)
    ensures (forall i: nat, e: nat :: !IsMatch(s, p, i, e)) ==> r == s
    ensures forall i: nat, e: nat :: IsFirstMatch(s, p, i, e) ==> r == s[..i] + Substitute(tag, s, i, e) + s[e..]
  {
    match FirstMatchFrom(s, p, 0)
    case None => s
    case Some((i, e)) =>
      forall i', e' | IsFirstMatch(s, p, i', e') ensures i' == i && e' == e {
        MatchEndUnique(s, p, i, e, e');
      }
      s[..i] + Substitute(tag, s, i, e) + s[e..]
  }

  /** The two readings agree exactly when the replacement carries no `$`. */
  lemma AsWrittenAgreesWithoutDollar(s: string, p: Pattern, tag: string)
    requires forall k :: 0 <= k < |tag| ==> tag[k] != '$'
    ensures ReplaceFirstAsWritten(s, p, tag) == ReplaceFirst(s, p, tag)
  {
    match FirstMatchFrom(s, p, 0)
    case None =>
    case Some((i, e)) =>
      SubstituteNoDollar(tag, s, i, e);
  }
}
