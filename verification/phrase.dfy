/**
  `convertToPhrase`: strip the trailing run of sentence punctuation,
  lowercase, trim, then uppercase the first character.
*/
module Phrase {
  import opened Text

  /** The characters of the class `[.!?]`. */
  predicate IsSentenceEnd(c: char) {
    c == '.' || c == '!' || c == '?'
  }

  /** `text.replace(/[.!?]+$/, '')`. */
  function StripSentenceEnd(text: string): (r: string)
    ensures r == [] || !IsSentenceEnd(r[|r| - 1])
    ensures |r| <= |text| && r == text[..|r|]
    ensures forall k :: |r| <= k < |text| ==> IsSentenceEnd(text[k])
  {
    DropLastWhile(text, IsSentenceEnd)
  }

  /** `text.charAt(0).toUpperCase() + text.slice(1)` for a non-empty text. */
  function Capitalize(t: string): (r: string)
    ensures |r| == |t|
    ensures t != [] ==> r[0] == UpperChar(t[0]) && r[1..] == t[1..]
  {
    if t == [] then t else [UpperChar(t[0])] + t[1..]
  }

  /**
    `convertToPhrase(text)`. The result starts with a character that is not
    a lower-case letter, has no upper-case letter after it, carries no
    surrounding whitespace, and is, up to case, the text without its
    trailing punctuation, trimmed.
  */
  function ConvertToPhrase(text: string): (r: string)
    ensures text == [] ==> r == []
    ensures r == [] || !IsLowerAscii(r[0])
    ensures forall i :: 1 <= i < |r| ==> !IsUpperAscii(r[i])
    ensures r == [] || (!IsSpace(r[0]) && !IsSpace(r[|r| - 1]))
    ensures Lower(r) == Lower(Trim(StripSentenceEnd(text)))
  {
    if text == [] then text
    else
      var b := StripSentenceEnd(text);
      var t := Trim(Lower(b));
      var r := Capitalize(t);
      PhraseShape(b, t, r);
      r
  }

  lemma PhraseShape(b: string, t: string, r: string)
    requires t == Trim(Lower(b)) && r == Capitalize(t)
    ensures r == [] || !IsLowerAscii(r[0])
    ensures forall i :: 1 <= i < |r| ==> !IsUpperAscii(r[i])
    ensures r == [] || (!IsSpace(r[0]) && !IsSpace(r[|r| - 1]))
    ensures Lower(r) == t == Lower(Trim(b))
  {
    TrimLower(b);
    TrimmedLowerHasNoUpper(b);
    LowerCapitalize(t);
  }

  lemma TrimmedLowerHasNoUpper(b: string)
    ensures forall k :: 0 <= k < |Trim(Lower(b))| ==> !IsUpperAscii(Trim(Lower(b))[k])
  {
    var y := Lower(b);
    var t := Trim(y);
    var i := Span(y, IsSpace);
    assert forall k :: 0 <= k < |t| ==> t[k] == y[i + k];
  }

  /** Lowercasing undoes the capitalisation of a text without upper-case letters. */
  lemma LowerCapitalize(t: string)
    requires forall k :: 0 <= k < |t| ==> !IsUpperAscii(t[k])
    ensures Lower(Capitalize(t)) == t
  {
    if t != [] {
      var r := Capitalize(t);
      assert Lower(r)[0] == LowerChar(UpperChar(t[0])) == t[0];
      assert forall k :: 1 <= k < |t| ==> Lower(r)[k] == t[k];
    }
  }

  /** The suffix check the idempotence and clean-end lemmas rely on. */
  predicate EndsInSentenceEnd(s: string) {
    s != [] && IsSentenceEnd(s[|s| - 1])
  }

  /**
    When what is left after removing the trailing punctuation does not end
    in whitespace, the phrase does not end in punctuation.
  */
  lemma PhraseEndsCleanly(text: string)
    requires var b := StripSentenceEnd(text); b == [] || !IsSpace(b[|b| - 1])
    ensures !EndsInSentenceEnd(ConvertToPhrase(text))
  {
    var b := StripSentenceEnd(text);
    var r := ConvertToPhrase(text);
    if r != [] {
      var u := Trim(b);
      assert |u| == |r|;
      TrimKeepsLastChar(b);
      assert LowerChar(r[|r| - 1]) == LowerChar(b[|b| - 1]);
    }
  }

  /** Trimming a text that does not end in whitespace keeps its last character. */
  lemma TrimKeepsLastChar(b: string)
    requires b != [] && !IsSpace(b[|b| - 1])
    ensures Trim(b) != [] && Trim(b)[|Trim(b)| - 1] == b[|b| - 1]
  {
    var u := Trim(b);
    var i := Span(b, IsSpace);
    assert i + |u| == |b|;
  }

  /**
    The punctuation is stripped before the whitespace is trimmed, so a
    sentence end that precedes trailing whitespace survives.
  */
  lemma PunctuationBeforeSpaceSurvives()
    ensures ConvertToPhrase("ok. .") == "Ok."
    ensures EndsInSentenceEnd(ConvertToPhrase("ok. ."))
  {
    StripsOnlyTheLastRun();
    LowerOfLowercase("ok. ");
    TrimLeavesThePeriod();
    assert Capitalize("ok.") == "Ok.";
  }

  lemma StripsOnlyTheLastRun()
    ensures StripSentenceEnd("ok. .") == "ok. "
  {
    DropLastWhileUnique("ok. .", IsSentenceEnd, 4);
  }

  lemma TrimLeavesThePeriod()
    ensures Trim("ok. ") == "ok."
  {
    SpanUnique("ok. ", IsSpace, 0);
    DropLastWhileUnique("ok. ", IsSpace, 3);
  }

  /** Converting a phrase that does not end in punctuation again changes nothing. */
  lemma {:induction false} PhraseIdempotent(text: string)
    requires !EndsInSentenceEnd(ConvertToPhrase(text))
    ensures ConvertToPhrase(ConvertToPhrase(text)) == ConvertToPhrase(text)
  {
    var r := ConvertToPhrase(text);
    if r != [] {
      DropLastWhileUnique(r, IsSentenceEnd, |r|);
      assert StripSentenceEnd(r) == r;
      var t := Trim(Lower(StripSentenceEnd(text)));
      PhraseShape(StripSentenceEnd(text), t, r);
      TrimOfTrimmed(t);
      assert Capitalize(t) == r;
    }
  }

  lemma TrimOfTrimmed(t: string)
    requires t == [] || (!IsSpace(t[0]) && !IsSpace(t[|t| - 1]))
    ensures Trim(t) == t
  {
    assert Span(t, IsSpace) == 0;
    assert DropLastWhile(t, IsSpace) == t;
  }

  /** A finished sentence loses its full stop and keeps its capital. */
  lemma ShippedExample()
    ensures ConvertToPhrase("Shipped it.") == "Shipped it"
  {
    ShippedStrip();
    ShippedLower();
    TrimOfTrimmed("shipped it");
    assert Capitalize("shipped it") == "Shipped it";
  }

  lemma ShippedStrip()
    ensures StripSentenceEnd("Shipped it.") == "Shipped it"
  {
    DropLastWhileUnique("Shipped it.", IsSentenceEnd, 10);
  }

  lemma ShippedLower()
    ensures Lower("Shipped it") == "shipped it"
  {
    assert LowerChar('S') == 's';
  }
}
