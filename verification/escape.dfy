/**
  `escapeHtml` of the browser front end: three global replacements applied
  in turn, `&` first, then `<`, then `>`.
*/
module HtmlEscape {

  /** How often `c` occurs in `s`. */
  function Count(s: string, c: char): nat
    decreases |s|
  {
    if s == [] then 0 else (if s[0] == c then 1 else 0) + Count(s[1..], c)
  }

  /** `s.replace(/c/g, entity)`. */
  function ReplaceAll(s: string, c: char, entity: string): (r: string)
    ensures c !in s ==> r == s
    decreases |s|
  {
    if s == [] then []
    else (if s[0] == c then entity else [s[0]]) + ReplaceAll(s[1..], c, entity)
  }

  /** `escapeHtml(text)` on a string argument; `!text` is the empty string. */
  function EscapeHtml(text: string): (r: string)
    ensures forall i :: 0 <= i < |r| ==> r[i] != '<' && r[i] != '>'
    ensures |r| == |text| + 4 * Count(text, '&') + 3 * Count(text, '<') + 3 * Count(text, '>')
  {
    if text == [] then []
    else
      var r := ReplaceAll(ReplaceAll(ReplaceAll(text, '&', "&amp;"), '<', "&lt;"), '>', "&gt;");
      PassesAreOnePass(text);
      EscapeEachLength(text);
      r
  }

  /** The entity for one character, or the character itself. */
  function EscapeChar(c: char): string {
    if c == '&' then "&amp;"
    else if c == '<' then "&lt;"
    else if c == '>' then "&gt;"
    else [c]
  }

  /** Reference definition: every character escaped independently, in a single pass. */
  function EscapeEach(s: string): (r: string)
    ensures forall i :: 0 <= i < |r| ==> r[i] != '<' && r[i] != '>'
    decreases |s|
  {
    if s == [] then [] else EscapeChar(s[0]) + EscapeEach(s[1..])
  }

  lemma {:induction false} ReplaceAllAppend(a: string, b: string, c: char, entity: string)
    ensures ReplaceAll(a + b, c, entity) == ReplaceAll(a, c, entity) + ReplaceAll(b, c, entity)
    decreases |a|
  {
    if a != [] {
      assert (a + b)[0] == a[0];
      assert (a + b)[1..] == a[1..] + b;
      ReplaceAllAppend(a[1..], b, c, entity);
      var h := if a[0] == c then entity else [a[0]];
      assert ReplaceAll(a + b, c, entity) == h + ReplaceAll(a[1..] + b, c, entity);
      assert ReplaceAll(a, c, entity) == h + ReplaceAll(a[1..], c, entity);
    } else {
      assert a + b == b;
    }
  }

  /** The three passes on one character give that character's entity. */
  lemma PassesOnChar(c: char)
    ensures ReplaceAll(ReplaceAll(ReplaceAll([c], '&', "&amp;"), '<', "&lt;"), '>', "&gt;") == EscapeChar(c)
  {
    assert [c][1..] == [];
  }

  /**
    Replacing `&` before `<` and `>` means the entities the later passes
    introduce are never escaped again: the three passes are the single pass.
  */
  lemma {:induction false} PassesAreOnePass(s: string)
    ensures ReplaceAll(ReplaceAll(ReplaceAll(s, '&', "&amp;"), '<', "&lt;"), '>', "&gt;") == EscapeEach(s)
    decreases |s|
  {
    if s != [] {
      var head, tail := [s[0]], s[1..];
      assert s == head + tail;
      PassesAreOnePass(tail);
      ReplaceAllAppend(head, tail, '&', "&amp;");
      var one, rest1 := ReplaceAll(head, '&', "&amp;"), ReplaceAll(tail, '&', "&amp;");
      ReplaceAllAppend(one, rest1, '<', "&lt;");
      var two, rest2 := ReplaceAll(one, '<', "&lt;"), ReplaceAll(rest1, '<', "&lt;");
      ReplaceAllAppend(two, rest2, '>', "&gt;");
      PassesOnChar(s[0]);
    }
  }

  lemma {:induction false} EscapeEachLength(s: string)
    ensures |EscapeEach(s)| == |s| + 4 * Count(s, '&') + 3 * Count(s, '<') + 3 * Count(s, '>')
    decreases |s|
  {
    if s != [] {
      EscapeEachLength(s[1..]);
    }
  }

  /** Escaping is exactly the single-pass reference. */
  lemma EscapeHtmlIsOnePass(s: string)
    ensures EscapeHtml(s) == EscapeEach(s)
  {
    PassesAreOnePass(s);
  }

  /** A string without `&`, `<` or `>` is returned unchanged. */
  lemma {:induction false} EscapeHtmlKeepsPlainText(s: string)
    requires forall i :: 0 <= i < |s| ==> s[i] != '&' && s[i] != '<' && s[i] != '>'
    ensures EscapeHtml(s) == s
    decreases |s|
  {
    if s != [] {
      EscapeHtmlKeepsPlainText(s[1..]);
      PassesAreOnePass(s);
      PassesAreOnePass(s[1..]);
    }
  }

  /** Decoding of the three entities the escaper produces. */
  function Unescape(s: string): string
    decreases |s|
  {
    if s == [] then []
    else if |s| >= 5 && s[..5] == "&amp;" then ['&'] + Unescape(s[5..])
    else if |s| >= 4 && s[..4] == "&lt;" then ['<'] + Unescape(s[4..])
    else if |s| >= 4 && s[..4] == "&gt;" then ['>'] + Unescape(s[4..])
    else [s[0]] + Unescape(s[1..])
  }

  /** Decoding consumes one escaped character at the front. */
  lemma UnescapeStep(c: char, rest: string)
    ensures Unescape(EscapeChar(c) + rest) == [c] + Unescape(rest)
  {
    if c == '&' {
      UnescapeAmp(rest);
    } else if c == '<' {
      UnescapeLt(rest);
    } else if c == '>' {
      UnescapeGt(rest);
    } else {
      UnescapePlain(c, rest);
    }
  }

  lemma UnescapeAmp(rest: string)
    ensures Unescape("&amp;" + rest) == ['&'] + Unescape(rest)
  {
    var t := "&amp;" + rest;
    assert t[..5] == "&amp;" && t[5..] == rest;
  }

  lemma UnescapePlain(c: char, rest: string)
    requires c != '&'
    ensures Unescape([c] + rest) == [c] + Unescape(rest)
  {
    var t := [c] + rest;
    assert t[0] == c && t[1..] == rest;
  }

  lemma UnescapeLt(rest: string)
    ensures Unescape("&lt;" + rest) == ['<'] + Unescape(rest)
  {
    var t := "&lt;" + rest;
    assert t[1] == 'l' && (|t| >= 5 ==> t[..5][1] == 'l');
    assert t[..4] == "&lt;" && t[4..] == rest;
  }

  lemma UnescapeGt(rest: string)
    ensures Unescape("&gt;" + rest) == ['>'] + Unescape(rest)
  {
    var t := "&gt;" + rest;
    assert t[1] == 'g' && (|t| >= 5 ==> t[..5][1] == 'g') && t[..4][1] == 'g';
    assert t[..4] == "&gt;" && t[4..] == rest;
  }

  lemma {:induction false} UnescapeEscapeEach(s: string)
    ensures Unescape(EscapeEach(s)) == s
    decreases |s|
  {
    if s != [] {
      UnescapeEscapeEach(s[1..]);
      UnescapeStep(s[0], EscapeEach(s[1..]));
      assert s == [s[0]] + s[1..];
    }
  }

  /** Decoding an escaped string gives back the original. */
  lemma UnescapeEscape(s: string)
    ensures Unescape(EscapeHtml(s)) == s
  {
    PassesAreOnePass(s);
    UnescapeEscapeEach(s);
  }
}
