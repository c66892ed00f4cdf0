/**
  `extractKeywords` and `optimizeForATS`: matching a job description against
  a closed vocabulary of technology terms, and topping up a skills list with
  the terms it lacks.
*/
module Keywords {
  import opened Wrappers
  import opened Text
  import opened Lists

  /** `commonTechKeywords`, in the source's order; every entry is lowercase. */
  const TechKeywords: seq<string> := [
    "javascript", "python", "java", "react", "angular", "vue", "node.js",
    "aws", "azure", "gcp", "docker", "kubernetes", "git", "agile",
    "scrum", "ci/cd", "api", "rest", "graphql", "sql", "nosql",
    "machine learning", "ai", "data analysis", "project management"
  ]

  /** At most this many missing keywords are added per call. */
  const MaxAdded: nat := 3

  /** The vocabulary entries found in the lowercased `text`, in vocabulary order. */
  function MentionedIn(text: string): seq<string> {
    Filter(TechKeywords, (k: string) => Contains(Lower(text), k))
  }

  /** `extractKeywords(jobDescription)`. */
  function ExtractKeywords(jd: string): (r: seq<string>)
    ensures jd == [] ==> r == []
    ensures forall w :: w in r <==> jd != [] && w in TechKeywords && Contains(Lower(jd), w)
    ensures IsSubsequence(r, TechKeywords)
  {
    if jd == [] then [] else MentionedIn(jd)
  }

  /** Length and second letter: enough to tell the vocabulary entries apart. */
  function Fingerprint(s: string): int {
    |s| * 128 + (if |s| > 1 then s[1] as int else 0)
  }

  /** The vocabulary's fingerprints, in vocabulary order. */
  const Fingerprints: seq<int> := [
    1377, 889, 609, 741, 1006, 501, 1007,
    503, 762, 483, 879, 1397, 489, 743,
    739, 745, 496, 613, 1010, 497, 751,
    2145, 361, 1761, 2418
  ]

  lemma FingerprintsMatch()
    ensures |Fingerprints| == |TechKeywords|
    ensures forall i :: 0 <= i < |TechKeywords| ==> Fingerprint(TechKeywords[i]) == Fingerprints[i]
  {
  }

  /** The position of a fingerprint in `Fingerprints`, or -1. */
  function SlotOf(fingerprint: int): int {
    match fingerprint
    case 1377 => 0
    case 889 => 1
    case 609 => 2
    case 741 => 3
    case 1006 => 4
    case 501 => 5
    case 1007 => 6
    case 503 => 7
    case 762 => 8
    case 483 => 9
    case 879 => 10
    case 1397 => 11
    case 489 => 12
    case 743 => 13
    case 739 => 14
    case 745 => 15
    case 496 => 16
    case 613 => 17
    case 1010 => 18
    case 497 => 19
    case 751 => 20
    case 2145 => 21
    case 361 => 22
    case 1761 => 23
    case 2418 => 24
    case _ => -1
  }

  /** Each fingerprint leads back to its own position. */
  lemma SlotsRecoverPositions()
    ensures forall i :: 0 <= i < |Fingerprints| ==> SlotOf(Fingerprints[i]) == i
  {
  }

  lemma FingerprintsDistinct()
    ensures Distinct(Fingerprints)
  {
    SlotsRecoverPositions();
    forall i, j | 0 <= i < j < |Fingerprints|
      ensures Fingerprints[i] != Fingerprints[j]
    {
      assert SlotOf(Fingerprints[i]) != SlotOf(Fingerprints[j]);
    }
  }

  /** No term appears twice in the vocabulary. */
  lemma TechKeywordsDistinct()
    ensures Distinct(TechKeywords)
  {
    FingerprintsMatch();
    FingerprintsDistinct();
    forall i, j | 0 <= i < j < |TechKeywords|
      ensures TechKeywords[i] != TechKeywords[j]
    {
      assert Fingerprint(TechKeywords[i]) != Fingerprint(TechKeywords[j]);
    }
  }

  /**
    The keyword list is the only ordered selection from the vocabulary with
    exactly the mentioned terms: any such selection is `extractKeywords`' result.
  */
  lemma ExtractKeywordsDetermined(jd: string, r: seq<string>)
    requires IsSubsequence(r, TechKeywords)
    requires forall w :: w in r <==> jd != [] && w in TechKeywords && Contains(Lower(jd), w)
    ensures r == ExtractKeywords(jd)
  {
    TechKeywordsDistinct();
    SubsequenceDetermined(r, ExtractKeywords(jd), TechKeywords);
  }

  /** `skills.some(skill => skill.toLowerCase().includes(keyword.toLowerCase()))`, tried in order. */
  function Covers(skills: seq<string>, keyword: string): (b: bool)
    ensures b <==> exists i :: 0 <= i < |skills| && Contains(Lower(skills[i]), Lower(keyword))
    decreases |skills|
  {
    if skills == [] then false
    else if Contains(Lower(skills[0]), Lower(keyword)) then true
    else
      var b := Covers(skills[1..], keyword);
      assert forall i :: 1 <= i < |skills| ==> skills[i] == skills[1..][i - 1];
      b
  }

  /** The keywords no skill already covers, in keyword order. */
  function Missing(skills: seq<string>, keywords: seq<string>): seq<string> {
    Filter(keywords, (k: string) => !Covers(skills, k))
  }

  /**
    `optimizeForATS(content, jobDescription)` on the `skills` field; `None`
    is a content object without one.
  */
  function OptimizeForATS(skills: Option<seq<string>>, jd: string): (r: Option<seq<string>>)
    ensures jd == [] || skills.None? ==> r == skills
    ensures r.Some? <==> skills.Some?
    ensures skills.Some? ==> skills.value <= r.value && |r.value| <= |skills.value| + MaxAdded
    ensures skills.Some? && jd != [] ==>
      var missing := Missing(skills.value, ExtractKeywords(jd));
      && r.value[|skills.value|..] <= missing
      && |r.value| - |skills.value| == if |missing| < MaxAdded then |missing| else MaxAdded
  {
    if jd == [] then skills
    else match skills
      case None => None
      case Some(s) =>
        Some(AddMissing(s, ExtractKeywords(jd)))
  }

  /** The skills followed by the first three keywords they do not cover. */
  function AddMissing(skills: seq<string>, keywords: seq<string>): (r: seq<string>)
    ensures skills <= r && r[|skills|..] <= Missing(skills, keywords)
    ensures |r| - |skills| == if |Missing(skills, keywords)| < MaxAdded then |Missing(skills, keywords)| else MaxAdded
  {
    var missing := Missing(skills, keywords);
    if |missing| > 0 then
      var r := skills + Take(missing, MaxAdded);
      assert r[|skills|..] == Take(missing, MaxAdded);
      r
    else skills
  }

  /**
    What `optimizeForATS` appends are keywords of the description that no
    existing skill covered: the first three of them, or all when fewer.
  */
  lemma OptimizeAddsMissingKeywords(skills: seq<string>, jd: string)
    requires jd != []
    ensures var r := OptimizeForATS(Some(skills), jd).value;
      var missing := Missing(skills, ExtractKeywords(jd));
      && (forall i :: |skills| <= i < |r| ==> r[i] in ExtractKeywords(jd) && !Covers(skills, r[i]))
      && r[|skills|..] <= missing
      && |r| - |skills| == if |missing| < MaxAdded then |missing| else MaxAdded
  {
    var r := OptimizeForATS(Some(skills), jd).value;
    var missing := Missing(skills, ExtractKeywords(jd));
    var added := Take(missing, MaxAdded);
    assert r == skills + added;
    forall i | |skills| <= i < |r|
      ensures r[i] in ExtractKeywords(jd) && !Covers(skills, r[i])
    {
      assert r[i] == added[i - |skills|] == missing[i - |skills|];
      assert missing[i - |skills|] in missing;
    }
  }

  /** A skill list keeps covering a keyword when more skills are appended. */
  lemma CoversAppend(s: seq<string>, t: seq<string>, k: string)
    requires Covers(s, k)
    ensures Covers(s + t, k)
  {
    var i :| 0 <= i < |s| && Contains(Lower(s[i]), Lower(k));
    assert (s + t)[i] == s[i];
  }

  /** A keyword listed as a skill covers itself. */
  lemma CoversItself(s: seq<string>, i: nat)
    requires i < |s|
    ensures Covers(s, s[i])
  {
    assert OccursAt(Lower(s[i]), Lower(s[i]), 0);
  }

  /** Appending every missing keyword leaves none missing. */
  lemma NothingMissingAfterAdding(skills: seq<string>, keywords: seq<string>)
    ensures Missing(skills + Missing(skills, keywords), keywords) == []
  {
    var missing := Missing(skills, keywords);
    var once := skills + missing;
    forall i | 0 <= i < |keywords|
      ensures Covers(once, keywords[i])
    {
      var k := keywords[i];
      if Covers(skills, k) {
        CoversAppend(skills, missing, k);
      } else {
        assert k in keywords && !Covers(skills, k);
        assert k in missing;
        var j :| 0 <= j < |missing| && missing[j] == k;
        CoversItself(once, |skills| + j);
      }
    }
    FilterNone(keywords, (k: string) => !Covers(once, k));
  }

  /**
    When no more than three keywords are missing, one call adds them all and
    a second call changes nothing.
  */
  lemma OptimizeSaturates(skills: seq<string>, jd: string)
    ensures |Missing(skills, ExtractKeywords(jd))| <= MaxAdded ==>
      OptimizeForATS(OptimizeForATS(Some(skills), jd), jd) == OptimizeForATS(Some(skills), jd)
  {
    if jd != [] && |Missing(skills, ExtractKeywords(jd))| <= MaxAdded {
      var keywords := ExtractKeywords(jd);
      NothingMissingAfterAdding(skills, keywords);
      assert AddMissing(skills, keywords) == skills + Missing(skills, keywords);
      assert AddMissing(AddMissing(skills, keywords), keywords) == AddMissing(skills, keywords);
    }
  }
}
