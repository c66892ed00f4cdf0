/**
  Character and string primitives with the semantics of the JavaScript
  built-ins the engine uses: ASCII `toLowerCase`/`toUpperCase`, the `\s`
  and `trim` whitespace set, the `\b`/`\w` word characters, `\d`,
  `String.prototype.includes`, `Array.prototype.join` and the decimal
  rendering of a non-negative integer in a template literal.
*/
module Text {

  /** `\d` in a JavaScript regular expression. */
  predicate IsDigit(c: char) { '0' <= c <= '9' }

  predicate IsUpperAscii(c: char) { 'A' <= c <= 'Z' }

  predicate IsLowerAscii(c: char) { 'a' <= c <= 'z' }

  /** `\w`: the characters a `\b` word boundary separates from the rest. */
  predicate IsWordChar(c: char) {
    IsUpperAscii(c) || IsLowerAscii(c) || IsDigit(c) || c == '_'
  }

  /**
    `\s`, which is also exactly the set `String.prototype.trim` removes:
    the ECMAScript WhiteSpace and LineTerminator code points.
  */
  predicate IsSpace(c: char) {
    || c == '\t' || c == '\n' || c == '\U{000B}' || c == '\U{000C}' || c == '\r' || c == ' '
    || c == '\U{00A0}' || c == '\U{1680}' || ('\U{2000}' <= c <= '\U{200A}')
    || c == '\U{2028}' || c == '\U{2029}' || c == '\U{202F}' || c == '\U{205F}'
    || c == '\U{3000}' || c == '\U{FEFF}'
  }

  function LowerChar(c: char): (d: char)
    ensures !IsUpperAscii(d)
    ensures IsUpperAscii(c) ==> IsLowerAscii(d) && d as int == c as int + 32
    ensures !IsUpperAscii(c) ==> d == c
    ensures IsSpace(d) <==> IsSpace(c)
  {
    if IsUpperAscii(c) then (c as int + 32) as char else c
  }

  function UpperChar(c: char): (d: char)
    ensures !IsLowerAscii(d)
    ensures IsLowerAscii(c) ==> IsUpperAscii(d) && d as int == c as int - 32
    ensures !IsLowerAscii(c) ==> d == c
  {
    if IsLowerAscii(c) then (c as int - 32) as char else c
  }

  /** `toLowerCase`, restricted to the ASCII letters. */
  function Lower(s: string): (r: string)
    ensures |r| == |s|
    ensures forall i :: 0 <= i < |s| ==> r[i] == LowerChar(s[i])
  {
    seq(|s|, i requires 0 <= i < |s| => LowerChar(s[i]))
  }

  /** A string without upper-case letters is its own lower case. */
  lemma LowerOfLowercase(s: string)
    requires forall k :: 0 <= k < |s| ==> !IsUpperAscii(s[k])
    ensures Lower(s) == s
  {
  }

  /** Length of the longest prefix of `s` whose characters all satisfy `p`. */
  function Span(s: string, p: char -> bool): (n: nat)
    ensures n <= |s|
    ensures forall k :: 0 <= k < n ==> p(s[k])
    ensures n < |s| ==> !p(s[n])
  {
    if s == [] || !p(s[0]) then 0 else 1 + Span(s[1..], p)
  }

  /** The span of `p` over a run of `p`-characters followed by a non-`p` character or the end is the run. */
  lemma {:induction false} SpanOfRun(w: string, t: string, p: char -> bool)
    requires forall j :: 0 <= j < |w| ==> p(w[j])
    requires t == [] || !p(t[0])
    ensures Span(w + t, p) == |w|
    decreases |w|
  {
    if w != [] {
      assert (w + t)[1..] == w[1..] + t;
      SpanOfRun(w[1..], t, p);
    } else {
      assert w + t == t;
    }
  }

  /** `s` without its longest suffix whose characters all satisfy `p`. */
  function DropLastWhile(s: string, p: char -> bool): (r: string)
    ensures |r| <= |s| && r == s[..|r|]
    ensures forall k :: |r| <= k < |s| ==> p(s[k])
    ensures r == [] || !p(r[|r| - 1])
  {
    if s != [] && p(s[|s| - 1]) then DropLastWhile(s[..|s| - 1], p) else s
  }

  predicate AllSpace(s: string) {
    forall k :: 0 <= k < |s| ==> IsSpace(s[k])
  }

  /** The characters of `s` that are not whitespace, in order. */
  function NonSpace(s: string): string
    decreases |s|
  {
    if s == [] then [] else (if IsSpace(s[0]) then [] else [s[0]]) + NonSpace(s[1..])
  }

  lemma {:induction false} NonSpaceAppend(a: string, b: string)
    ensures NonSpace(a + b) == NonSpace(a) + NonSpace(b)
    decreases |a|
  {
    if a != [] {
      NonSpaceAppend(a[1..], b);
      assert (a + b)[1..] == a[1..] + b;
    } else {
      assert a + b == b;
    }
  }

  /** A leading run of whitespace contributes nothing. */
  lemma {:induction false} NonSpaceSkip(s: string, k: nat)
    requires k <= |s| && AllSpace(s[..k])
    ensures NonSpace(s) == NonSpace(s[k..])
    decreases k
  {
    if k > 0 {
      assert IsSpace(s[..k][0]);
      assert s[1..][..k - 1] == s[..k][1..];
      NonSpaceSkip(s[1..], k - 1);
      assert s[1..][k - 1..] == s[k..];
    }
  }

  /** `String.prototype.trim`: the slice of `s` between its leading and its trailing whitespace. */
  function Trim(s: string): (r: string)
    ensures r == [] || (!IsSpace(r[0]) && !IsSpace(r[|r| - 1]))
    ensures Span(s, IsSpace) + |r| <= |s|
    ensures r == s[Span(s, IsSpace)..Span(s, IsSpace) + |r|]
    ensures AllSpace(s[..Span(s, IsSpace)]) && AllSpace(s[Span(s, IsSpace) + |r|..])
  {
    var i := Span(s, IsSpace);
    var r := DropLastWhile(s[i..], IsSpace);
    assert r == s[i..i + |r|];
    r
  }

  /** Trimming removes whitespace only. */
  lemma NonSpaceTrim(s: string)
    ensures NonSpace(Trim(s)) == NonSpace(s)
  {
    var i := Span(s, IsSpace);
    var r := Trim(s);
    var head, tail := s[..i], s[i + |r|..];
    assert s == head + r + tail;
    NonSpaceBetweenSpaces(head, r, tail);
  }

  /** Whitespace on either side contributes nothing. */
  lemma NonSpaceBetweenSpaces(head: string, r: string, tail: string)
    requires AllSpace(head) && AllSpace(tail)
    ensures NonSpace(head + r + tail) == NonSpace(r)
  {
    assert head + r + tail == head + (r + tail);
    NonSpaceAppend(head, r + tail);
    NonSpaceAppend(r, tail);
    assert head[..|head|] == head && tail[..|tail|] == tail;
    NonSpaceSkip(head, |head|);
    NonSpaceSkip(tail, |tail|);
  }

  /** `Span` is the only length with its two defining properties. */
  lemma SpanUnique(s: string, p: char -> bool, n: nat)
    requires n <= |s|
    requires forall k :: 0 <= k < n ==> p(s[k])
    requires n < |s| ==> !p(s[n])
    ensures Span(s, p) == n
  {
  }

  /** `DropLastWhile` is the only prefix with its two defining properties. */
  lemma DropLastWhileUnique(s: string, p: char -> bool, m: nat)
    requires m <= |s|
    requires forall k :: m <= k < |s| ==> p(s[k])
    requires m == 0 || !p(s[m - 1])
    ensures DropLastWhile(s, p) == s[..m]
  {
  }

  lemma LowerSpan(x: string)
    ensures Span(Lower(x), IsSpace) == Span(x, IsSpace)
  {
    var y := Lower(x);
    assert forall k :: 0 <= k < |x| ==> (IsSpace(y[k]) <==> IsSpace(x[k]));
    SpanUnique(y, IsSpace, Span(x, IsSpace));
  }

  lemma LowerDropTrailingSpace(t: string)
    ensures DropLastWhile(Lower(t), IsSpace) == Lower(DropLastWhile(t, IsSpace))
  {
    var y := Lower(t);
    var r := DropLastWhile(t, IsSpace);
    var m := |r|;
    assert forall k :: 0 <= k < |t| ==> (IsSpace(y[k]) <==> IsSpace(t[k]));
    assert m == 0 || !IsSpace(y[m - 1]) by {
      if m > 0 {
        assert t[m - 1] == r[m - 1];
      }
    }
    DropLastWhileUnique(y, IsSpace, m);
  }

  /** Trimming commutes with lowercasing, as lowercasing keeps whitespace. */
  lemma TrimLower(x: string)
    ensures Trim(Lower(x)) == Lower(Trim(x))
  {
    var i := Span(x, IsSpace);
    LowerSpan(x);
    assert Lower(x)[i..] == Lower(x[i..]);
    LowerDropTrailingSpace(x[i..]);
  }

  /**
    The maximal runs of `p`-characters of `s`, left to right; the
    characters between them are dropped.
  */
  function Runs(s: string, p: char -> bool): seq<string>
    decreases |s|
  {
    if s == [] then []
    else if p(s[0]) then
      var n := Span(s, p);
      [s[..n]] + Runs(s[n..], p)
    else Runs(s[1..], p)
  }

  predicate StartsInRun(s: string, p: char -> bool) {
    s != [] && p(s[0])
  }

  predicate IsNonSpace(c: char) {
    !IsSpace(c)
  }

  /** The maximal runs of non-whitespace characters: the pieces `s.split(/\s+/)` yields, without empty ones. */
  function Segments(s: string): seq<string> {
    Runs(s, IsNonSpace)
  }

  /** A prefix of characters outside the runs contributes no run. */
  lemma {:induction false} RunsSkip(s: string, k: nat, p: char -> bool)
    requires k <= |s|
    requires forall j :: 0 <= j < k ==> !p(s[j])
    ensures Runs(s, p) == Runs(s[k..], p)
    decreases k
  {
    if k > 0 {
      RunsSkip(s[1..], k - 1, p);
      assert s[1..][k - 1..] == s[k..];
    }
  }

  /** A whole run followed by a boundary is the first run. */
  lemma RunsOfRun(w: string, t: string, p: char -> bool)
    requires w != [] && forall j :: 0 <= j < |w| ==> p(w[j])
    requires t == [] || !p(t[0])
    ensures Runs(w + t, p) == [w] + Runs(t, p)
  {
    var s := w + t;
    SpanOfRun(w, t, p);
    assert s[..|w|] == w && s[|w|..] == t;
  }

  /** Prepending one character to strings with the same runs and the same start keeps their runs equal. */
  lemma RunsCons(c: char, x: string, y: string, p: char -> bool)
    requires Runs(x, p) == Runs(y, p)
    requires StartsInRun(x, p) == StartsInRun(y, p)
    ensures Runs([c] + x, p) == Runs([c] + y, p)
  {
    if p(c) {
      RunsConsRun(c, x, p);
      RunsConsRun(c, y, p);
    } else {
      assert ([c] + x)[1..] == x;
      assert ([c] + y)[1..] == y;
    }
  }

  /** A run character in front extends the first run, or starts a run of its own. */
  lemma RunsConsRun(c: char, x: string, p: char -> bool)
    requires p(c)
    ensures StartsInRun(x, p) ==> Runs(x, p) != [] && Runs([c] + x, p) == [[c] + Runs(x, p)[0]] + Runs(x, p)[1..]
    ensures !StartsInRun(x, p) ==> Runs([c] + x, p) == [[c]] + Runs(x, p)
  {
    var s := [c] + x;
    assert s[1..] == x;
    var m := Span(x, p);
    assert Span(s, p) == 1 + m;
    assert s[..1 + m] == [c] + x[..m];
    assert s[1 + m..] == x[m..];
  }

  /** Trailing characters outside the runs contribute no run. */
  lemma {:induction false} RunsDropTrailing(t: string, m: nat, p: char -> bool)
    requires m <= |t|
    requires forall j :: m <= j < |t| ==> !p(t[j])
    ensures Runs(t[..m], p) == Runs(t, p)
    decreases m
  {
    if m == 0 {
      RunsSkip(t, |t|, p);
    } else {
      var t' := t[1..];
      RunsDropTrailing(t', m - 1, p);
      assert t[..m] == [t[0]] + t'[..m - 1];
      assert t == [t[0]] + t';
      RunsCons(t[0], t'[..m - 1], t', p);
    }
  }

  /** Trimming keeps the runs of any class without whitespace. */
  lemma RunsTrim(s: string, p: char -> bool)
    requires forall c :: IsSpace(c) ==> !p(c)
    ensures Runs(Trim(s), p) == Runs(s, p)
  {
    var k := Span(s, IsSpace);
    var t := s[k..];
    RunsSkip(s, k, p);
    var r := DropLastWhile(t, IsSpace);
    RunsDropTrailing(t, |r|, p);
  }

  /** `s` ends with `t`. */
  predicate EndsWith(s: string, t: string) {
    |t| <= |s| && s[|s| - |t|..] == t
  }

  /** `pat` occurs in `text` starting at index `i`. */
  predicate OccursAt(text: string, pat: string, i: nat) {
    i + |pat| <= |text| && text[i..i + |pat|] == pat
  }

  function ContainsFrom(text: string, pat: string, from: nat): (b: bool)
    requires from <= |text|
    ensures b <==> exists i :: from <= i <= |text| && OccursAt(text, pat, i)
    decreases |text| - from
  {
    if from + |pat| > |text| then false
    else if text[from..from + |pat|] == pat then assert OccursAt(text, pat, from); true
    else ContainsFrom(text, pat, from + 1)
  }

  /** `text.includes(pat)`. */
  function Contains(text: string, pat: string): (b: bool)
    ensures b <==> exists i :: 0 <= i <= |text| && OccursAt(text, pat, i)
  {
    ContainsFrom(text, pat, 0)
  }

  /** `items.join(sep)`. */
  function Join(items: seq<string>, sep: string): string
    decreases |items|
  {
    if |items| == 0 then []
    else if |items| == 1 then items[0]
    else Join(items[..|items| - 1], sep) + sep + items[|items| - 1]
  }

  /** An occurrence survives appending text after it. */
  lemma OccursInLonger(a: string, b: string, pat: string, i: nat)
    requires OccursAt(a, pat, i)
    ensures OccursAt(a + b, pat, i)
  {
    assert (a + b)[i..i + |pat|] == a[i..i + |pat|];
  }

  /** An occurrence inside `b` is an occurrence inside `a + b + c`, shifted by `|a|`. */
  lemma OccursInMiddle(a: string, b: string, c: string, pat: string, q: nat)
    requires OccursAt(b, pat, q)
    ensures OccursAt(a + b + c, pat, |a| + q)
  {
    assert (a + b + c)[|a| + q..|a| + q + |pat|] == b[q..q + |pat|];
  }

  /** Every item can be found in the joined string. */
  lemma {:induction false} JoinContainsItems(items: seq<string>, sep: string)
    ensures forall i :: 0 <= i < |items| ==> Contains(Join(items, sep), items[i])
    decreases |items|
  {
    if |items| > 1 {
      JoinContainsItems(items[..|items| - 1], sep);
      forall i | 0 <= i < |items|
        ensures Contains(Join(items, sep), items[i])
      {
        if i == |items| - 1 {
          JoinLastItem(items, sep);
        } else {
          assert items[i] == items[..|items| - 1][i];
          JoinEarlierItem(items, sep, i);
        }
      }
    } else if |items| == 1 {
      assert OccursAt(Join(items, sep), items[0], 0);
    }
  }

  /** The last item closes the joined string. */
  lemma JoinLastItem(items: seq<string>, sep: string)
    requires |items| > 1
    ensures Contains(Join(items, sep), items[|items| - 1])
  {
    var head, last := Join(items[..|items| - 1], sep) + sep, items[|items| - 1];
    assert Join(items, sep) == head + last;
    assert (head + last)[|head|..|head| + |last|] == last;
    assert OccursAt(head + last, last, |head|);
  }

  /** An item found in the join of all but the last is found in the whole join. */
  lemma JoinEarlierItem(items: seq<string>, sep: string, i: nat)
    requires |items| > 1 && i < |items| - 1
    requires Contains(Join(items[..|items| - 1], sep), items[i])
    ensures Contains(Join(items, sep), items[i])
  {
    var front := Join(items[..|items| - 1], sep);
    var p :| 0 <= p <= |front| && OccursAt(front, items[i], p);
    OccursInLonger(front, sep + items[|items| - 1], items[i], p);
    assert front + (sep + items[|items| - 1]) == Join(items, sep);
  }

  /** Every item of a joined list can be found in any text around it. */
  lemma JoinedInMiddle(before: string, items: seq<string>, sep: string, after: string)
    ensures forall i :: 0 <= i < |items| ==> Contains(before + Join(items, sep) + after, items[i])
  {
    var joined := Join(items, sep);
    JoinContainsItems(items, sep);
    forall i | 0 <= i < |items|
      ensures Contains(before + joined + after, items[i])
    {
      var q :| 0 <= q <= |joined| && OccursAt(joined, items[i], q);
      OccursInMiddle(before, joined, after, items[i], q);
    }
  }

  function DigitChar(d: nat): (c: char)
    requires d < 10
    ensures IsDigit(c)
  {
    "0123456789"[d]
  }

  function DigitValue(c: char): nat
    requires IsDigit(c)
  {
    c as int - '0' as int
  }

  /** The decimal digits a template literal renders for a non-negative integer. */
  function NatToString(n: nat): (s: string)
    ensures |s| > 0
    ensures forall k :: 0 <= k < |s| ==> IsDigit(s[k])
    ensures s[0] == '0' ==> n == 0 && s == "0"
    decreases n
  {
    if n < 10 then [DigitChar(n)] else NatToString(n / 10) + [DigitChar(n % 10)]
  }

  /** The value of a string of decimal digits. */
  function ParseDigits(s: string): nat
    requires forall k :: 0 <= k < |s| ==> IsDigit(s[k])
    decreases |s|
  {
    if s == [] then 0 else 10 * ParseDigits(s[..|s| - 1]) + DigitValue(s[|s| - 1])
  }

  /** Rendering a number and reading it back gives the number. */
  lemma {:induction false} ParseNatToString(n: nat)
    ensures ParseDigits(NatToString(n)) == n
    decreases n
  {
    if n >= 10 {
      var s := NatToString(n);
      ParseNatToString(n / 10);
      assert s[..|s| - 1] == NatToString(n / 10);
    }
  }

  /** Distinct numbers render as distinct strings. */
  lemma NatToStringInjective(m: nat, n: nat)
    ensures NatToString(m) == NatToString(n) ==> m == n
  {
    ParseNatToString(m);
    ParseNatToString(n);
  }
}
