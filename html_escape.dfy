/**
 * `escapeHtml` of api/og-order.js: every `&`, `<`, `>`, `"` and `'` of the text
 * is replaced by a character reference (HTML Living Standard, section 13.1.4),
 * every other character is kept.
 */
module HtmlEscape {
  import opened Text

  /** The five characters the source escapes. */
  predicate IsSpecial(c: char)
  {
    c == '&' || c == '<' || c == '>' || c == '"' || c == '\''
  }

  /** The characters that may never appear raw in escaped text. */
  predicate IsMarkup(c: char)
  {
    c == '<' || c == '>' || c == '"' || c == '\''
  }

  /** The replacement table of the source. */
  function EscapeChar(c: char): (r: string)
    ensures IsSpecial(c) ==> |r| >= 4 && r[0] == '&' && r[|r| - 1] == ';'
    ensures !IsSpecial(c) ==> r == [c]
    ensures forall k :: 0 <= k < |r| ==> !IsMarkup(r[k])
    ensures forall k :: 0 < k < |r| ==> r[k] != '&'
  {
    match c
    case '&' => "&amp;"
    case '<' => "&lt;"
    case '>' => "&gt;"
    case '"' => "&quot;"
    case '\'' => "&#039;"
    case _ => [c]
  }

  /** `escapeHtml(text)`: the global replace of /[&<>"']/ through the table. */
  function EscapeHtml(s: string): (r: string)
    ensures |r| >= |s|
    ensures forall k :: 0 <= k < |r| ==> !IsMarkup(r[k])
    decreases |s|
  {
    if s == [] then [] else EscapeChar(s[0]) + EscapeHtml(s[1..])
  }

  /** Escaping introduces no `$`. */
  lemma {:induction false} EscapeKeepsDollarFree(s: string)
    requires forall k :: 0 <= k < |s| ==> s[k] != '$'
    ensures forall k :: 0 <= k < |EscapeHtml(s)| ==> EscapeHtml(s)[k] != '$'
    decreases |s|
  {
    if s != [] {
      EscapeKeepsDollarFree(s[1..]);
      assert EscapeHtml(s) == EscapeChar(s[0]) + EscapeHtml(s[1..]);
    }
  }

  /** `&` at index `i` of `r` begins one of the five character references. */
  predicate EntityAt(r: string, i: nat)
  {
    IsPrefixAt(r, i, "&amp;") || IsPrefixAt(r, i, "&lt;") || IsPrefixAt(r, i, "&gt;")
    || IsPrefixAt(r, i, "&quot;") || IsPrefixAt(r, i, "&#039;")
  }

  /** Every `&` in escaped text is the start of a character reference. */
  lemma {:induction false} AmpersandsBeginEntities(s: string)
    ensures forall i :: 0 <= i < |EscapeHtml(s)| && EscapeHtml(s)[i] == '&' ==> EntityAt(EscapeHtml(s), i)
    decreases |s|
  {
    if s != [] {
      var head, tail := EscapeChar(s[0]), EscapeHtml(s[1..]);
      AmpersandsBeginEntities(s[1..]);
      assert EscapeHtml(s) == head + tail;
      forall i | 0 <= i < |head + tail| && (head + tail)[i] == '&'
        ensures EntityAt(head + tail, i)
      {
        if i < |head| {
          assert i == 0 && IsSpecial(s[0]);
          assert (head + tail)[..|head|] == head;
        } else {
          var j := i - |head|;
          assert tail[j] == '&';
          assert EntityAt(tail, j);
          if IsPrefixAt(tail, j, "&amp;") { PrefixAtShift(head, tail, "", j, "&amp;"); }
          else if IsPrefixAt(tail, j, "&lt;") { PrefixAtShift(head, tail, "", j, "&lt;"); }
          else if IsPrefixAt(tail, j, "&gt;") { PrefixAtShift(head, tail, "", j, "&gt;"); }
          else if IsPrefixAt(tail, j, "&quot;") { PrefixAtShift(head, tail, "", j, "&quot;"); }
          else { PrefixAtShift(head, tail, "", j, "&#039;"); }
          assert head + tail + "" == head + tail;
        }
      }
    }
  }

  /** Text without any of the five characters is left exactly as it is. */
  lemma {:induction false} EscapeIdentity(s: string)
    requires forall k :: 0 <= k < |s| ==> !IsSpecial(s[k])
    ensures EscapeHtml(s) == s
    decreases |s|
  {
    if s != [] {
      EscapeIdentity(s[1..]);
      assert s == [s[0]] + s[1..];
    }
  }

  /** Escaping works character by character, so it distributes over concatenation. */
  lemma {:induction false} EscapeConcat(a: string, b: string)
    ensures EscapeHtml(a + b) == EscapeHtml(a) + EscapeHtml(b)
    decreases |a|
  {
    if a != [] {
      assert (a + b)[0] == a[0];
      assert (a + b)[1..] == a[1..] + b;
      EscapeConcat(a[1..], b);
    } else {
      assert a + b == b;
    }
  }

  /**
   * Reading character references back: the decoder of the five references
   * the table produces, every other character standing for itself.
   */
  function Unescape(r: string): string
    decreases |r|
  {
    if r == [] then []
    else if r[0] != '&' || |r| < 4 then [r[0]] + Unescape(r[1..])
    else if r[1] == 'l' && r[2] == 't' && r[3] == ';' then ['<'] + Unescape(r[4..])
    else if r[1] == 'g' && r[2] == 't' && r[3] == ';' then ['>'] + Unescape(r[4..])
    else if |r| < 5 then [r[0]] + Unescape(r[1..])
    else if r[1] == 'a' && r[2] == 'm' && r[3] == 'p' && r[4] == ';' then ['&'] + Unescape(r[5..])
    else if |r| < 6 then [r[0]] + Unescape(r[1..])
    else if r[1..6] == "quot;" then ['"'] + Unescape(r[6..])
    else if r[1..6] == "#039;" then ['\''] + Unescape(r[6..])
    else [r[0]] + Unescape(r[1..])
  }

  /** One escaped character in front of any text decodes to that character. */
  lemma UnescapeStep(c: char, tail: string)
    ensures Unescape(EscapeChar(c) + tail) == [c] + Unescape(tail)
  {
    var r := EscapeChar(c) + tail;
    assert r[|EscapeChar(c)|..] == tail;
    if c == '"' {
      assert r[1..6] == "quot;";
    } else if c == '\'' {
      assert r[1..6] == "#039;";
    } else if !IsSpecial(c) {
      assert r[0] == c;
    }
  }

  /** Decoding the escaped text gives back the original text. */
  lemma {:induction false} UnescapeEscape(s: string)
    ensures Unescape(EscapeHtml(s)) == s
    decreases |s|
  {
    if s != [] {
      UnescapeStep(s[0], EscapeHtml(s[1..]));
      UnescapeEscape(s[1..]);
      assert s == [s[0]] + s[1..];
    }
  }

  /** Distinct texts escape to distinct texts. */
  lemma EscapeInjective(a: string, b: string)
    requires EscapeHtml(a) == EscapeHtml(b)
    ensures a == b
  {
    UnescapeEscape(a);
    UnescapeEscape(b);
  }
}
