/**
  `hasQuantification` and `suggestQuantification`: detect a number-bearing
  impact statement, or append one of five canned impact phrases.
*/
module Quantification {
  import opened Text

  /** The six regular expressions `hasQuantification` tests, in table order. */
  datatype Pattern =
    | Percentage       // \d+%
    | DollarAmount     // \$\d+
    | PlusSuffix       // \d+\+
    | MagnitudeSuffix  // \d+[KMB]
    | TimePeriod       // \d+\s*(hours?|days?|weeks?|months?|years?)  (case-insensitive)
    | ScaleIndicator   // \d+\s*(users?|customers?|clients?|projects?|teams?)  (case-insensitive)

  const Patterns: seq<Pattern> :=
    [Percentage, DollarAmount, PlusSuffix, MagnitudeSuffix, TimePeriod, ScaleIndicator]

  /** The unit words; the optional plural `s?` never decides whether a match exists. */
  const TimeUnits: seq<string> := ["hour", "day", "week", "month", "year"]
  const ScaleUnits: seq<string> := ["user", "customer", "client", "project", "team"]

  /** A case-insensitive occurrence of one of `units` at index `j`. */
  ghost predicate UnitAt(s: string, j: nat, units: seq<string>) {
    exists u :: u in units && OccursAt(Lower(s), u, j)
  }

  /** Whether one of `units` occurs in `lowered` at `j`, tried in order. */
  function SomeUnitAt(lowered: string, j: nat, units: seq<string>): (b: bool)
    ensures b <==> exists u :: u in units && OccursAt(lowered, u, j)
    decreases |units|
  {
    if units == [] then false
    else OccursAt(lowered, units[0], j) || SomeUnitAt(lowered, j, units[1..])
  }

  /** After the digit at `i`, only whitespace up to `j`, where a unit word starts. */
  ghost predicate SpacedUnit(s: string, i: nat, j: nat, units: seq<string>) {
    i < j <= |s| && AllSpace(s[i + 1..j]) && UnitAt(s, j, units)
  }

  /**
    Pattern `p` has a match in `s` whose run of digits ends at index `i`.
    A `\d+` run matches wherever its last digit does, so a pattern matches
    `s` exactly when this holds at some index.
  */
  ghost predicate MatchesAt(p: Pattern, s: string, i: nat) {
    && i < |s| && IsDigit(s[i])
    && match p
       case Percentage => i + 1 < |s| && s[i + 1] == '%'
       case DollarAmount => i >= 1 && s[i - 1] == '$'
       case PlusSuffix => i + 1 < |s| && s[i + 1] == '+'
       case MagnitudeSuffix => i + 1 < |s| && s[i + 1] in "KMB"
       case TimePeriod => exists j :: SpacedUnit(s, i, j, TimeUnits)
       case ScaleIndicator => exists j :: SpacedUnit(s, i, j, ScaleUnits)
  }

  /** `\s*` is greedy and a unit word starts with a letter, so it starts right after the whitespace run. */
  function UnitAfterSpaces(s: string, i: nat, units: seq<string>): (b: bool)
    requires i < |s|
    requires forall u :: u in units ==> u != [] && IsLowerAscii(u[0])
    ensures b <==> exists j :: SpacedUnit(s, i, j, units)
  {
    var k := i + 1 + Span(s[i + 1..], IsSpace);
    assert AllSpace(s[i + 1..k]);
    forall j: nat | SpacedUnit(s, i, j, units)
      ensures j == k
    {
      UnitStartsAfterSpaces(s, i, j, units);
    }
    var b := SomeUnitAt(Lower(s), k, units);
    assert b ==> SpacedUnit(s, i, k, units);
    b
  }

  lemma UnitStartsAfterSpaces(s: string, i: nat, j: nat, units: seq<string>)
    requires i < |s|
    requires forall u :: u in units ==> u != [] && IsLowerAscii(u[0])
    requires SpacedUnit(s, i, j, units)
    ensures j == i + 1 + Span(s[i + 1..], IsSpace)
  {
    var t := s[i + 1..];
    var u :| u in units && OccursAt(Lower(s), u, j);
    assert Lower(s)[j] == u[0];
    assert !IsSpace(s[j]);
    forall m | 0 <= m < j - (i + 1)
      ensures IsSpace(t[m])
    {
      assert t[m] == s[i + 1..j][m];
    }
    assert t[j - (i + 1)] == s[j];
    SpanUnique(t, IsSpace, j - (i + 1));
  }

  /** Whether pattern `p` matches with its digit run ending at `i`, as a scan computes it. */
  function MatchAt(p: Pattern, s: string, i: nat): (b: bool)
    requires i < |s|
    ensures b <==> MatchesAt(p, s, i)
  {
    IsDigit(s[i]) &&
    match p
    case Percentage => i + 1 < |s| && s[i + 1] == '%'
    case DollarAmount => i >= 1 && s[i - 1] == '$'
    case PlusSuffix => i + 1 < |s| && s[i + 1] == '+'
    case MagnitudeSuffix => i + 1 < |s| && s[i + 1] in "KMB"
    case TimePeriod => UnitAfterSpaces(s, i, TimeUnits)
    case ScaleIndicator => UnitAfterSpaces(s, i, ScaleUnits)
  }

  function TestFrom(p: Pattern, s: string, from: nat): (b: bool)
    requires from <= |s|
    ensures b <==> exists i :: from <= i && MatchesAt(p, s, i)
    decreases |s| - from
  {
    if from == |s| then false
    else MatchAt(p, s, from) || TestFrom(p, s, from + 1)
  }

  /** `pattern.test(text)`. */
  function Test(p: Pattern, s: string): (b: bool)
    ensures b <==> exists i :: MatchesAt(p, s, i)
  {
    TestFrom(p, s, 0)
  }

  /** `patterns.some(pattern => pattern.test(text))`. */
  function TestAny(patterns: seq<Pattern>, text: string): (b: bool)
    ensures b <==> exists p :: p in patterns && Test(p, text)
    decreases |patterns|
  {
    if patterns == [] then false
    else Test(patterns[0], text) || TestAny(patterns[1..], text)
  }

  /** `hasQuantification(text)`: some pattern of the table matches somewhere. */
  function HasQuantification(text: string): (b: bool)
    ensures b <==> exists p, i :: MatchesAt(p, text, i)
  {
    if text == [] then false
    else
      var b := TestAny(Patterns, text);
      forall p, i | MatchesAt(p, text, i)
        ensures b
      {
        PatternListed(p);
        assert Test(p, text);
      }
      b
  }

  lemma PatternListed(p: Pattern)
    ensures p in Patterns
  {
    assert Patterns[0] == Percentage && Patterns[1] == DollarAmount && Patterns[2] == PlusSuffix;
    assert Patterns[3] == MagnitudeSuffix && Patterns[4] == TimePeriod && Patterns[5] == ScaleIndicator;
  }

  /** A text without a digit is never quantified. */
  lemma NoDigitNoQuantification(text: string)
    requires forall k :: 0 <= k < |text| ==> !IsDigit(text[k])
    ensures !HasQuantification(text)
  {
  }

  /** A digit followed by `%`, `+` or one of `K`, `M`, `B`, or preceded by `$`, is quantified. */
  lemma MarkedNumberIsQuantified(text: string, i: nat)
    requires i < |text| && IsDigit(text[i])
    requires || (i + 1 < |text| && text[i + 1] in "%+KMB")
             || (i >= 1 && text[i - 1] == '$')
    ensures HasQuantification(text)
  {
    if i >= 1 && text[i - 1] == '$' {
      assert MatchesAt(DollarAmount, text, i);
    } else if text[i + 1] == '%' {
      assert MatchesAt(Percentage, text, i);
    } else if text[i + 1] == '+' {
      assert MatchesAt(PlusSuffix, text, i);
    } else {
      assert MatchesAt(MagnitudeSuffix, text, i);
    }
  }

  /** The canned impact phrases of `suggestQuantification`, in order. */
  const Suggestions: seq<string> := [
    "resulting in measurable improvement",
    "achieving significant impact",
    "delivering positive outcomes",
    "exceeding expectations",
    "driving successful results"
  ]

  /**
    `suggestQuantification(result)`, with `pick` standing for
    `Math.floor(Math.random() * suggestions.length)`.
  */
  function SuggestQuantification(result: string, pick: nat): (r: string)
    requires pick < |Suggestions|
    ensures exists k :: 0 <= k < |Suggestions| && r == result + ", " + Suggestions[k]
  {
    result + ", " + Suggestions[pick]
  }
}
