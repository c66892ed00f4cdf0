/**
  `removePersonalPronouns`: delete every whole-word I/me/my/we/our/us (any
  case), collapse each run of whitespace to one space, and trim.
*/
module Pronouns {
  import opened Text
  import opened Lists

  /** The alternatives of the case-insensitive pattern `\b(I|me|my|we|our|us)\b`, lowercased. */
  const PersonalPronouns: seq<string> := ["i", "me", "my", "we", "our", "us"]

  predicate IsPronoun(w: string) {
    Lower(w) in PersonalPronouns
  }

  /**
    The maximal runs of word characters of `s`, left to right: the tokens
    a `\b ... \b` pattern can match as a whole.
  */
  function Words(s: string): seq<string> {
    Runs(s, IsWordChar)
  }

  /** The words of `ws` that are not pronouns, in order. */
  function NonPronouns(ws: seq<string>): seq<string>
    decreases |ws|
  {
    if ws == [] then []
    else (if IsPronoun(ws[0]) then [] else [ws[0]]) + NonPronouns(ws[1..])
  }

  /**
    `text.replace(/\b(I|me|my|we|our|us)\b/gi, '')`. A match must start
    where no word character precedes and end where none follows, so it is
    exactly a maximal word run that spells a pronoun.
  */
  function DropPronouns(s: string): string
    decreases |s|
  {
    if s == [] then []
    else if IsWordChar(s[0]) then
      var n := Span(s, IsWordChar);
      (if IsPronoun(s[..n]) then [] else s[..n]) + DropPronouns(s[n..])
    else [s[0]] + DropPronouns(s[1..])
  }

  /**
    The tokens of `s`, left to right: each maximal run of word characters,
    and each other character on its own.
  */
  function Tokens(s: string): (ts: seq<string>)
    ensures s == [] <==> ts == []
    ensures s != [] ==> ts[0] != [] && ts[0][0] == s[0]
    decreases |s|
  {
    if s == [] then []
    else
      var n := FirstTokenLength(s);
      [s[..n]] + Tokens(s[n..])
  }

  /** A token that is a run of word characters. */
  predicate IsWordToken(t: string) {
    t != [] && IsWordChar(t[0])
  }

  /** A token the pronoun deletion keeps: anything but a word spelling a pronoun. */
  predicate KeptToken(t: string) {
    !(IsWordToken(t) && IsPronoun(t))
  }

  function Concat(ts: seq<string>): string
    decreases |ts|
  {
    if ts == [] then [] else ts[0] + Concat(ts[1..])
  }

  lemma ConcatCons(t: string, ts: seq<string>)
    ensures Concat([t] + ts) == t + Concat(ts)
  {
    assert ([t] + ts)[1..] == ts;
  }

  /** The length of the first token of a non-empty `s`. */
  function FirstTokenLength(s: string): (n: nat)
    requires s != []
    ensures 1 <= n <= |s|
    ensures IsWordChar(s[0]) ==> forall j :: 0 <= j < n ==> IsWordChar(s[j])
    ensures IsWordChar(s[0]) && n < |s| ==> !IsWordChar(s[n])
    ensures !IsWordChar(s[0]) ==> n == 1
  {
    if IsWordChar(s[0]) then Span(s, IsWordChar) else 1
  }

  /** The tokens concatenate back to `s`. */
  lemma {:induction false} TokensConcat(s: string)
    ensures Concat(Tokens(s)) == s
    decreases |s|
  {
    if s != [] {
      var n := FirstTokenLength(s);
      var head, rest := s[..n], s[n..];
      assert Tokens(s) == [head] + Tokens(rest);
      TokensConcat(rest);
      ConcatCons(head, Tokens(rest));
      assert head + rest == s;
    }
  }

  /** A token is a non-empty run of word characters or one non-word character. */
  predicate TokenShape(t: string) {
    && t != []
    && (IsWordToken(t) ==> forall j :: 0 <= j < |t| ==> IsWordChar(t[j]))
    && (!IsWordToken(t) ==> |t| == 1)
  }

  /**
    The tokens cut `s` into maximal word runs and single other characters:
    every token has its shape, and no two word tokens are adjacent.
  */
  lemma {:induction false} TokensMaximal(s: string)
    ensures forall i :: 0 <= i < |Tokens(s)| ==> TokenShape(Tokens(s)[i])
    ensures forall i :: 0 <= i < |Tokens(s)| - 1 ==> !(IsWordToken(Tokens(s)[i]) && IsWordToken(Tokens(s)[i + 1]))
    decreases |s|
  {
    if s != [] {
      var n := FirstTokenLength(s);
      var rest := s[n..];
      TokensMaximal(rest);
      var ts := Tokens(s);
      assert TokenShape(ts[0]);
      assert forall i :: 1 <= i < |ts| ==> ts[i] == Tokens(rest)[i - 1];
      if IsWordChar(s[0]) && rest != [] {
        assert Tokens(rest)[0][0] == s[n];
      }
    }
  }

  /**
    `DropPronouns` deletes exactly the word tokens that spell a pronoun and
    keeps every other token, in order.
  */
  lemma {:induction false} DropPronounsDeletesPronounTokens(s: string)
    ensures DropPronouns(s) == Concat(Filter(Tokens(s), KeptToken))
    decreases |s|
  {
    if s != [] {
      var n := FirstTokenLength(s);
      var head, rest := s[..n], s[n..];
      DropPronounsDeletesPronounTokens(rest);
      var ts := [head] + Tokens(rest);
      assert ts[1..] == Tokens(rest);
      if KeptToken(head) {
        assert Filter(ts, KeptToken) == [head] + Filter(Tokens(rest), KeptToken);
        ConcatCons(head, Filter(Tokens(rest), KeptToken));
        if !IsWordChar(s[0]) {
          assert head == [s[0]];
        }
      } else {
        assert Filter(ts, KeptToken) == Filter(Tokens(rest), KeptToken);
      }
    }
  }

  /** No two adjacent whitespace characters. */
  predicate NoDoubleSpace(s: string) {
    forall i :: 0 <= i < |s| - 1 ==> !(IsSpace(s[i]) && IsSpace(s[i + 1]))
  }

  /** The only whitespace character is the plain space. */
  predicate OnlyPlainSpaces(s: string) {
    forall i :: 0 <= i < |s| && IsSpace(s[i]) ==> s[i] == ' '
  }

  /** `s` ends with a whitespace character. */
  predicate EndsInSpace(s: string) {
    s != [] && IsSpace(s[|s| - 1])
  }

  /**
    `text.replace(/\s+/g, ' ')`: the non-whitespace segments stay as they
    are, in order, and each whitespace run before, between or after them
    becomes one plain space.
  */
  function CollapseSpaces(s: string): (r: string)
    ensures NoDoubleSpace(r) && OnlyPlainSpaces(r)
    ensures r == [] <==> s == []
    ensures s != [] ==> (IsSpace(r[0]) <==> IsSpace(s[0]))
    ensures s != [] && !IsSpace(s[0]) ==> r[0] == s[0]
    ensures NonSpace(r) == NonSpace(s)
    decreases |s|
  {
    if s == [] then []
    else if IsSpace(s[0]) then
      var k := Span(s, IsSpace);
      var rest := CollapseSpaces(s[k..]);
      assert ([' '] + rest)[1..] == rest;
      NonSpaceSkip(s, k);
      [' '] + rest
    else
      var rest := CollapseSpaces(s[1..]);
      assert ([s[0]] + rest)[1..] == rest;
      [s[0]] + rest
  }

  /** `removePersonalPronouns(text)`; an empty text is returned as is. */
  function RemovePersonalPronouns(text: string): (r: string)
    ensures r == [] || (!IsSpace(r[0]) && !IsSpace(r[|r| - 1]))
    ensures NoDoubleSpace(r) && OnlyPlainSpaces(r)
    ensures Words(r) == NonPronouns(Words(text))
    ensures forall w :: w in Words(r) ==> !IsPronoun(w)
    ensures NonSpace(r) == NonSpace(DropPronouns(text))
    ensures Segments(r) == Segments(DropPronouns(text))
  {
    if text == [] then text
    else
      var c := CollapseSpaces(DropPronouns(text));
      RemovedWords(text);
      CollapseKeepsSegments(DropPronouns(text));
      TrimOfCollapsed(c);
      Trim(c)
  }

  /** Trimming a collapsed string keeps it free of double and non-plain spaces, and keeps its other characters. */
  lemma TrimOfCollapsed(c: string)
    requires NoDoubleSpace(c) && OnlyPlainSpaces(c)
    ensures NoDoubleSpace(Trim(c)) && OnlyPlainSpaces(Trim(c))
    ensures NonSpace(Trim(c)) == NonSpace(c)
    ensures Segments(Trim(c)) == Segments(c)
  {
    var i := Span(c, IsSpace);
    var r := Trim(c);
    assert forall j :: 0 <= j < |r| ==> r[j] == c[i + j];
    NonSpaceTrim(c);
    RunsTrim(c, IsNonSpace);
  }

  /**
    Two texts whose whitespace is single plain spaces, with the same
    segments, and with whitespace at the same ends.
  */
  predicate SpacedAlike(a: string, b: string) {
    && NoDoubleSpace(a) && OnlyPlainSpaces(a) && NoDoubleSpace(b) && OnlyPlainSpaces(b)
    && Segments(a) == Segments(b)
    && StartsInRun(a, IsSpace) == StartsInRun(b, IsSpace)
    && EndsInSpace(a) == EndsInSpace(b)
  }

  /**
    A text whose whitespace is single plain spaces is fixed by its
    segments and by whether it starts and ends with whitespace.
  */
  lemma {:induction false} SpacingDetermined(a: string, b: string)
    requires NoDoubleSpace(a) && OnlyPlainSpaces(a) && NoDoubleSpace(b) && OnlyPlainSpaces(b)
    requires Segments(a) == Segments(b)
    requires StartsInRun(a, IsSpace) == StartsInRun(b, IsSpace)
    requires EndsInSpace(a) == EndsInSpace(b)
    ensures a == b
    decreases |a|, 1
  {
    if a == [] {
      NoSegmentsNoText(b);
    } else if b == [] {
      NoSegmentsNoText(a);
    } else if IsSpace(a[0]) {
      SpacingAfterSpace(a, b);
    } else {
      SpacingAfterSegment(a, b);
    }
  }

  /** Both texts start with one space; the rests are alike again. */
  lemma {:induction false} SpacingAfterSpace(a: string, b: string)
    requires SpacedAlike(a, b) && a != [] && b != [] && IsSpace(a[0])
    ensures a == b
    decreases |a|, 0
  {
    var a', b' := a[1..], b[1..];
    SpacedTail(a);
    SpacedTail(b);
    if a' == [] {
      NoSegmentsNoText(b');
    } else if b' == [] {
      NoSegmentsNoText(a');
    } else {
      assert a'[|a'| - 1] == a[|a| - 1] && b'[|b'| - 1] == b[|b| - 1];
    }
    SpacingDetermined(a', b');
    assert a == [a[0]] + a' && b == [b[0]] + b';
  }

  /** Both texts start with the same segment; the rests are alike again. */
  lemma {:induction false} SpacingAfterSegment(a: string, b: string)
    requires SpacedAlike(a, b) && a != [] && b != [] && !IsSpace(a[0])
    ensures a == b
    decreases |a|, 0
  {
    var n, m := Span(a, IsNonSpace), Span(b, IsNonSpace);
    FirstSegment(a);
    FirstSegment(b);
    assert Segments(a)[0] == a[..n] && Segments(b)[0] == b[..m];
    assert n == m;
    var a', b' := a[n..], b[n..];
    assert Segments(a') == Segments(a)[1..] && Segments(b') == Segments(b)[1..];
    SegmentTail(a, n);
    SegmentTail(b, n);
    if a' == [] {
      if b' != [] {
        LoneSpace(b');
        assert false;
      }
    } else if b' == [] {
      LoneSpace(a');
      assert false;
    } else {
      assert a'[|a'| - 1] == a[|a| - 1] && b'[|b'| - 1] == b[|b| - 1];
      SpacingDetermined(a', b');
    }
    assert a == a[..n] + a' && b == b[..n] + b';
  }

  /** The first segment of a text starting outside whitespace is its leading non-whitespace run. */
  lemma FirstSegment(s: string)
    requires s != [] && !IsSpace(s[0])
    ensures 0 < Span(s, IsNonSpace)
    ensures Segments(s) == [s[..Span(s, IsNonSpace)]] + Segments(s[Span(s, IsNonSpace)..])
  {
  }

  /** A text without segments that does not start with whitespace is empty. */
  lemma NoSegmentsNoText(s: string)
    requires Segments(s) == [] && !StartsInRun(s, IsSpace)
    ensures s == []
  {
  }

  /** After a leading space the rest keeps single plain spaces, starts outside whitespace and has the same segments. */
  lemma SpacedTail(s: string)
    requires NoDoubleSpace(s) && OnlyPlainSpaces(s) && s != [] && IsSpace(s[0])
    ensures s[0] == ' ' && NoDoubleSpace(s[1..]) && OnlyPlainSpaces(s[1..])
    ensures !StartsInRun(s[1..], IsSpace) && Segments(s[1..]) == Segments(s)
  {
    RunsSkip(s, 1, IsNonSpace);
  }

  /** After a first segment the rest keeps single plain spaces and starts with whitespace, when there is a rest. */
  lemma SegmentTail(s: string, n: nat)
    requires NoDoubleSpace(s) && OnlyPlainSpaces(s) && 0 < n <= |s| && n == Span(s, IsNonSpace)
    ensures NoDoubleSpace(s[n..]) && OnlyPlainSpaces(s[n..])
    ensures s[n..] == [] || IsSpace(s[n..][0])
    ensures !IsSpace(s[n - 1])
  {
  }

  /** A text with single spaces, starting with whitespace and without segments, is one space. */
  lemma LoneSpace(s: string)
    requires NoDoubleSpace(s) && OnlyPlainSpaces(s) && s != [] && IsSpace(s[0]) && Segments(s) == []
    ensures s == [s[0]] && IsSpace(s[|s| - 1])
  {
    SpacedTail(s);
    NoSegmentsNoText(s[1..]);
  }

  /**
    `CollapseSpaces` is the only text with single plain spaces, the same
    segments as its input, and whitespace at the ends where the input has it.
  */
  lemma CollapseSpacesDetermined(s: string, r: string)
    requires NoDoubleSpace(r) && OnlyPlainSpaces(r)
    requires Segments(r) == Segments(s)
    requires StartsInRun(r, IsSpace) == StartsInRun(s, IsSpace) && EndsInSpace(r) == EndsInSpace(s)
    ensures r == CollapseSpaces(s)
  {
    CollapseKeepsSegments(s);
    CollapseKeepsEnds(s);
    SpacingDetermined(r, CollapseSpaces(s));
  }

  /**
    `RemovePersonalPronouns` is the only text without whitespace at its
    ends, with single plain spaces, and with the segments the pronoun
    deletion left.
  */
  lemma RemovePersonalPronounsDetermined(text: string, r: string)
    requires r == [] || (!IsSpace(r[0]) && !IsSpace(r[|r| - 1]))
    requires NoDoubleSpace(r) && OnlyPlainSpaces(r)
    requires Segments(r) == Segments(DropPronouns(text))
    ensures r == RemovePersonalPronouns(text)
  {
    var q := RemovePersonalPronouns(text);
    if text == [] {
      assert DropPronouns(text) == [];
    }
    SpacingDetermined(r, q);
  }

  lemma RemovedWords(text: string)
    ensures Words(Trim(CollapseSpaces(DropPronouns(text)))) == NonPronouns(Words(text))
    ensures forall w :: w in NonPronouns(Words(text)) ==> !IsPronoun(w)
  {
    var c := CollapseSpaces(DropPronouns(text));
    WordsDropPronouns(text);
    WordsCollapse(DropPronouns(text));
    WordsTrim(c);
    NonPronounsFree(Words(text));
  }

  lemma {:induction false} NonPronounsFree(ws: seq<string>)
    ensures forall w :: w in NonPronouns(ws) ==> !IsPronoun(w)
    decreases |ws|
  {
    if ws != [] {
      NonPronounsFree(ws[1..]);
    }
  }

  lemma {:induction false} WordsDropPronouns(s: string)
    ensures Words(DropPronouns(s)) == NonPronouns(Words(s))
    decreases |s|
  {
    if s == [] {
    } else if IsWordChar(s[0]) {
      var n := Span(s, IsWordChar);
      var rest := s[n..];
      WordsDropPronouns(rest);
      assert Words(s) == [s[..n]] + Words(rest);
      assert ([s[..n]] + Words(rest))[1..] == Words(rest);
      assert NonPronouns(Words(s)) == (if IsPronoun(s[..n]) then [] else [s[..n]]) + NonPronouns(Words(rest));
      if IsPronoun(s[..n]) {
        assert DropPronouns(s) == DropPronouns(rest);
      } else {
        assert DropPronouns(s) == s[..n] + DropPronouns(rest);
        RunsOfRun(s[..n], DropPronouns(rest), IsWordChar);
      }
    } else {
      WordsDropPronouns(s[1..]);
      assert ([s[0]] + DropPronouns(s[1..]))[1..] == DropPronouns(s[1..]);
    }
  }

  lemma WordsCollapse(s: string)
    ensures Words(CollapseSpaces(s)) == Words(s)
  {
    RunsCollapse(s, IsWordChar);
  }

  /** Collapsing whitespace keeps the non-whitespace segments, in order. */
  lemma CollapseKeepsSegments(s: string)
    ensures Segments(CollapseSpaces(s)) == Segments(s)
  {
    RunsCollapse(s, IsNonSpace);
  }

  /** Collapsing whitespace keeps whether the text ends in whitespace. */
  lemma {:induction false} CollapseKeepsEnds(s: string)
    ensures EndsInSpace(CollapseSpaces(s)) <==> EndsInSpace(s)
    decreases |s|
  {
    if s != [] {
      var k := if IsSpace(s[0]) then Span(s, IsSpace) else 1;
      var rest := CollapseSpaces(s[k..]);
      CollapseKeepsEnds(s[k..]);
      assert CollapseSpaces(s) == [if IsSpace(s[0]) then ' ' else s[0]] + rest;
      if rest != [] {
        assert s[k..][|s[k..]| - 1] == s[|s| - 1];
      } else {
        assert s[k..] == [] && k == |s|;
        assert s[|s| - 1] == s[..k][k - 1];
      }
    }
  }

  /** Collapsing whitespace keeps the runs of any class without whitespace. */
  lemma {:induction false} RunsCollapse(s: string, p: char -> bool)
    requires forall c :: IsSpace(c) ==> !p(c)
    ensures Runs(CollapseSpaces(s), p) == Runs(s, p)
    decreases |s|
  {
    if s == [] {
    } else if IsSpace(s[0]) {
      var k := Span(s, IsSpace);
      var rest := CollapseSpaces(s[k..]);
      RunsCollapse(s[k..], p);
      assert CollapseSpaces(s) == [' '] + rest;
      RunsAfterSpaceRun(s, k, rest, p);
    } else {
      var rest := CollapseSpaces(s[1..]);
      RunsCollapse(s[1..], p);
      assert CollapseSpaces(s) == [s[0]] + rest;
      RunsBeforeCollapsed(s, rest, p);
    }
  }

  /** A character kept in front of the collapsed rest keeps the runs. */
  lemma RunsBeforeCollapsed(s: string, rest: string, p: char -> bool)
    requires forall c :: IsSpace(c) ==> !p(c)
    requires s != [] && (rest == [] <==> s[1..] == [])
    requires s[1..] != [] ==> (IsSpace(rest[0]) <==> IsSpace(s[1])) && (!IsSpace(s[1]) ==> rest[0] == s[1])
    requires Runs(rest, p) == Runs(s[1..], p)
    ensures Runs([s[0]] + rest, p) == Runs(s, p)
  {
    SameStartClass(rest, s[1..], p);
    RunsCons(s[0], rest, s[1..], p);
    assert [s[0]] + s[1..] == s;
  }

  /**
    Two strings that are empty together, start with whitespace together
    and otherwise start with the same character either both start in a
    run of a class without whitespace or neither does.
  */
  lemma SameStartClass(x: string, y: string, p: char -> bool)
    requires x == [] <==> y == []
    requires y != [] && IsSpace(y[0]) ==> !p(x[0]) && !p(y[0])
    requires y != [] ==> (IsSpace(x[0]) <==> IsSpace(y[0]))
    requires y != [] && !IsSpace(y[0]) ==> x[0] == y[0]
    ensures StartsInRun(x, p) == StartsInRun(y, p)
  {
  }

  /** A whitespace run replaced by one space leaves the runs of a class without whitespace as they were. */
  lemma RunsAfterSpaceRun(s: string, k: nat, rest: string, p: char -> bool)
    requires forall c :: IsSpace(c) ==> !p(c)
    requires 0 < k <= |s| && forall j :: 0 <= j < k ==> IsSpace(s[j])
    requires Runs(rest, p) == Runs(s[k..], p)
    ensures Runs([' '] + rest, p) == Runs(s, p)
  {
    RunsSkip(s, k, p);
    assert ([' '] + rest)[1..] == rest;
  }

  lemma WordsTrim(s: string)
    ensures Words(Trim(s)) == Words(s)
  {
    RunsTrim(s, IsWordChar);
  }
}
