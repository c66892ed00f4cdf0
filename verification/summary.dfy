/**
  `generateProfessionalSummary` and its two templates. Each summary is an
  introduction, then the leading competencies when there are any, then the
  first key achievement's action and result, lowercased, when there is one.
*/
module Summary {
  import opened Wrappers
  import opened Text
  import opened Profile
  import opened Lists

  /** `summary?.years_experience || 0`. */
  function Years(s: Option<ProfessionalSummary>): nat {
    if s.Some? then s.value.yearsExperience else 0
  }

  /** `summary?.core_competencies || []`. */
  function Competencies(s: Option<ProfessionalSummary>): seq<string> {
    if s.Some? then s.value.coreCompetencies else []
  }

  /** `summary?.key_achievements || []`. */
  function KeyAchievements(s: Option<ProfessionalSummary>): seq<Achievement> {
    if s.Some? then s.value.keyAchievements else []
  }

  /** The sentence listing the first `limit` competencies, or nothing when there are none. */
  function CompetencySentence(lead: string, competencies: seq<string>, limit: nat): string {
    if |competencies| > 0 then lead + Join(Take(competencies, limit), ", ") + ". " else []
  }

  /** The sentence quoting the first achievement's action and result, or nothing when there is none. */
  function AchievementSentence(lead: string, achievements: seq<Achievement>): string {
    if |achievements| > 0 then lead + Lower(achievements[0].y) + " " + Lower(achievements[0].z) + "." else []
  }

  /** The shape both templates share. */
  function Compose(intro: string, competencyLead: string, limit: nat, achievementLead: string,
                   s: Option<ProfessionalSummary>): string
  {
    intro + CompetencySentence(competencyLead, Competencies(s), limit)
          + AchievementSentence(achievementLead, KeyAchievements(s))
  }

  function FresherIntro(years: nat, role: TargetRole): string {
    "Recent graduate with " + NatToString(years) + " years of experience seeking " + role.position + " position. "
  }

  function ExperiencedIntro(years: nat, role: TargetRole): string {
    "Experienced " + role.position + " with " + NatToString(years) + " years of expertise in " + role.industry + ". "
  }

  /**
    The layout both templates promise: the introduction first; right after
    it the lead and the first `limit` competencies joined by ", ", when
    there are competencies; at the very end the lead and the first key
    achievement's Y and Z, lowercased, when there is one; the bare
    introduction when there is neither. Each of the listed competencies
    appears, and the text ends in a period exactly when it quotes an
    achievement. Its length is that of the introduction and the sentences
    it has, so nothing else sits between or after them.
  */
  ghost predicate Summarises(r: string, intro: string, competencyLead: string, limit: nat, achievementLead: string,
                             s: Option<ProfessionalSummary>)
  {
    && intro <= r
    && (|Competencies(s)| > 0 ==> intro + competencyLead + Join(Take(Competencies(s), limit), ", ") + ". " <= r)
    && (|KeyAchievements(s)| > 0 ==>
          var a := KeyAchievements(s)[0];
          EndsWith(r, achievementLead + Lower(a.y) + " " + Lower(a.z) + "."))
    && (|Competencies(s)| == 0 && |KeyAchievements(s)| == 0 ==> r == intro)
    && (forall i :: 0 <= i < |Competencies(s)| && i < limit ==> Contains(r, Competencies(s)[i]))
    && |r| > 0 && ((r[|r| - 1] == '.') <==> |KeyAchievements(s)| > 0)
    && |r| == |intro|
              + (if |Competencies(s)| > 0 then |competencyLead| + |Join(Take(Competencies(s), limit), ", ")| + 2 else 0)
              + (if |KeyAchievements(s)| > 0
                 then |achievementLead| + |KeyAchievements(s)[0].y| + |KeyAchievements(s)[0].z| + 2 else 0)
  }

  /**
    The layout fixes the text: two summaries of the same profile with the
    same introduction, leads and limit are equal.
  */
  lemma SummarisesDetermined(r: string, r': string, intro: string, competencyLead: string, limit: nat,
                             achievementLead: string, s: Option<ProfessionalSummary>)
    requires Summarises(r, intro, competencyLead, limit, achievementLead, s)
    requires Summarises(r', intro, competencyLead, limit, achievementLead, s)
    ensures r == r'
  {
    var head := if |Competencies(s)| > 0
      then intro + competencyLead + Join(Take(Competencies(s), limit), ", ") + ". " else intro;
    var tail := if |KeyAchievements(s)| > 0
      then var a := KeyAchievements(s)[0]; achievementLead + Lower(a.y) + " " + Lower(a.z) + "." else [];
    PrefixAndSuffix(r, head, tail);
    PrefixAndSuffix(r', head, tail);
  }

  /** A text of length `|head| + |tail|` that starts with `head` and ends with `tail` is `head + tail`. */
  lemma PrefixAndSuffix(r: string, head: string, tail: string)
    requires head <= r && EndsWith(r, tail) && |r| == |head| + |tail|
    ensures r == head + tail
  {
    assert r[..|head|] == head && r[|head|..] == tail;
    assert r == r[..|head|] + r[|head|..];
  }

  /** `generateFresherSummary(summary, targetRole)`. */
  function FresherSummary(s: Option<ProfessionalSummary>, role: TargetRole): (r: string)
    ensures Summarises(r, FresherIntro(Years(s), role), "Proficient in ", 3, "Demonstrated ability to ", s)
  {
    var r := Compose(FresherIntro(Years(s), role), "Proficient in ", 3, "Demonstrated ability to ", s);
    ComposeShape(FresherIntro(Years(s), role), "Proficient in ", 3, "Demonstrated ability to ", s);
    r
  }

  /** `generateExperiencedSummary(summary, targetRole)`. */
  function ExperiencedSummary(s: Option<ProfessionalSummary>, role: TargetRole): (r: string)
    ensures Summarises(r, ExperiencedIntro(Years(s), role), "Core competencies include ", 4, "Proven track record of ", s)
    ensures Contains(r, role.industry)
  {
    var intro := ExperiencedIntro(Years(s), role);
    var r := Compose(intro, "Core competencies include ", 4, "Proven track record of ", s);
    ComposeShape(intro, "Core competencies include ", 4, "Proven track record of ", s);
    IndustryInIntro(Years(s), role);
    FoundInExtension(intro, r, role.industry, |intro| - 2 - |role.industry|);
    r
  }

  /** An occurrence in a prefix is an occurrence in the whole text. */
  lemma FoundInExtension(intro: string, r: string, pat: string, q: nat)
    requires intro <= r && OccursAt(intro, pat, q)
    ensures Contains(r, pat)
  {
    OccursInLonger(intro, r[|intro|..], pat, q);
    assert intro + r[|intro|..] == r;
  }

  lemma IndustryInIntro(years: nat, role: TargetRole)
    ensures var intro := ExperiencedIntro(years, role);
      |intro| >= |role.industry| + 2 && OccursAt(intro, role.industry, |intro| - 2 - |role.industry|)
  {
    var intro := ExperiencedIntro(years, role);
    var before := "Experienced " + role.position + " with " + NatToString(years) + " years of expertise in ";
    assert intro == before + role.industry + ". ";
    assert intro[|before|..|before| + |role.industry|] == role.industry;
  }

  /** `generateProfessionalSummary(data)`: the fresher template for "fresher", the experienced one for anything else. */
  function GenerateProfessionalSummary(p: CandidateProfile): (r: string)
    ensures p.candidateType == "fresher" ==>
      Summarises(r, FresherIntro(Years(p.professionalSummary), p.targetRole), "Proficient in ", 3,
                 "Demonstrated ability to ", p.professionalSummary)
    ensures p.candidateType != "fresher" ==>
      Summarises(r, ExperiencedIntro(Years(p.professionalSummary), p.targetRole), "Core competencies include ", 4,
                 "Proven track record of ", p.professionalSummary)
    ensures p.candidateType == "fresher" ==> "Recent graduate with " <= r
    ensures p.candidateType != "fresher" ==> "Experienced " <= r
  {
    if p.candidateType == "fresher" then
      var r := FresherSummary(p.professionalSummary, p.targetRole);
      FresherIntroLead(Years(p.professionalSummary), p.targetRole);
      PrefixTransitive("Recent graduate with ", FresherIntro(Years(p.professionalSummary), p.targetRole), r);
      r
    else
      var r := ExperiencedSummary(p.professionalSummary, p.targetRole);
      ExperiencedIntroLead(Years(p.professionalSummary), p.targetRole);
      PrefixTransitive("Experienced ", ExperiencedIntro(Years(p.professionalSummary), p.targetRole), r);
      r
  }

  lemma FresherIntroLead(years: nat, role: TargetRole)
    ensures "Recent graduate with " <= FresherIntro(years, role)
  {
    var lead := "Recent graduate with ";
    assert FresherIntro(years, role) == lead + (NatToString(years) + " years of experience seeking " + role.position + " position. ");
  }

  lemma ExperiencedIntroLead(years: nat, role: TargetRole)
    ensures "Experienced " <= ExperiencedIntro(years, role)
  {
    var lead := "Experienced ";
    assert ExperiencedIntro(years, role) == lead + (role.position + " with " + NatToString(years) + " years of expertise in " + role.industry + ". ");
  }

  lemma PrefixTransitive(a: string, b: string, c: string)
    requires a <= b && b <= c
    ensures a <= c
  {
    assert c[..|a|] == b[..|a|];
  }

  /** A composed summary has the layout `Summarises` describes. */
  lemma ComposeShape(intro: string, competencyLead: string, limit: nat, achievementLead: string,
                     s: Option<ProfessionalSummary>)
    requires |intro| >= 2 && intro[|intro| - 2..] == ". "
    ensures Summarises(Compose(intro, competencyLead, limit, achievementLead, s), intro, competencyLead, limit,
                       achievementLead, s)
  {
    ComposeNamesCompetencies(intro, competencyLead, limit, achievementLead, s);
    ComposeEnding(intro, competencyLead, limit, achievementLead, s);
    ComposeSentences(intro, competencyLead, limit, achievementLead, s);
    ComposeLength(intro, competencyLead, limit, achievementLead, s);
  }

  lemma ComposeLength(intro: string, competencyLead: string, limit: nat, achievementLead: string,
                      s: Option<ProfessionalSummary>)
    ensures |Compose(intro, competencyLead, limit, achievementLead, s)|
      == |intro|
         + (if |Competencies(s)| > 0 then |competencyLead| + |Join(Take(Competencies(s), limit), ", ")| + 2 else 0)
         + (if |KeyAchievements(s)| > 0
            then |achievementLead| + |KeyAchievements(s)[0].y| + |KeyAchievements(s)[0].z| + 2 else 0)
  {
  }

  /** The competency sentence follows the introduction, and the achievement sentence closes the text. */
  lemma ComposeSentences(intro: string, competencyLead: string, limit: nat, achievementLead: string,
                         s: Option<ProfessionalSummary>)
    ensures var r := Compose(intro, competencyLead, limit, achievementLead, s);
      && (|Competencies(s)| > 0 ==> intro + competencyLead + Join(Take(Competencies(s), limit), ", ") + ". " <= r)
      && (|KeyAchievements(s)| > 0 ==>
            var a := KeyAchievements(s)[0];
            EndsWith(r, achievementLead + Lower(a.y) + " " + Lower(a.z) + "."))
      && (|Competencies(s)| == 0 && |KeyAchievements(s)| == 0 ==> r == intro)
  {
    var c := CompetencySentence(competencyLead, Competencies(s), limit);
    var a := AchievementSentence(achievementLead, KeyAchievements(s));
    var r := Compose(intro, competencyLead, limit, achievementLead, s);
    assert r == (intro + c) + a;
    if |Competencies(s)| > 0 {
      assert intro + c == intro + competencyLead + Join(Take(Competencies(s), limit), ", ") + ". ";
    }
    assert r[|r| - |a|..] == a;
  }

  lemma ComposeNamesCompetencies(intro: string, competencyLead: string, limit: nat, achievementLead: string,
                                 s: Option<ProfessionalSummary>)
    ensures var r := Compose(intro, competencyLead, limit, achievementLead, s);
      forall i :: 0 <= i < |Competencies(s)| && i < limit ==> Contains(r, Competencies(s)[i])
  {
    var r := Compose(intro, competencyLead, limit, achievementLead, s);
    if |Competencies(s)| > 0 {
      var listed := Take(Competencies(s), limit);
      var before := intro + competencyLead;
      var after := ". " + AchievementSentence(achievementLead, KeyAchievements(s));
      ComposeSplit(intro, competencyLead, limit, achievementLead, s);
      JoinedInMiddle(before, listed, ", ", after);
      forall i | 0 <= i < |Competencies(s)| && i < limit
        ensures Contains(r, Competencies(s)[i])
      {
        assert listed[i] == Competencies(s)[i];
      }
    }
  }

  /** With competencies, the joined list sits between the lead and the rest. */
  lemma ComposeSplit(intro: string, competencyLead: string, limit: nat, achievementLead: string,
                     s: Option<ProfessionalSummary>)
    requires |Competencies(s)| > 0
    ensures Compose(intro, competencyLead, limit, achievementLead, s)
      == (intro + competencyLead) + Join(Take(Competencies(s), limit), ", ")
         + (". " + AchievementSentence(achievementLead, KeyAchievements(s)))
  {
  }

  lemma ComposeEnding(intro: string, competencyLead: string, limit: nat, achievementLead: string,
                      s: Option<ProfessionalSummary>)
    requires |intro| >= 2 && intro[|intro| - 2..] == ". "
    ensures var r := Compose(intro, competencyLead, limit, achievementLead, s);
      intro <= r && ((r[|r| - 1] == '.') <==> |KeyAchievements(s)| > 0)
  {
    var r := Compose(intro, competencyLead, limit, achievementLead, s);
    var c := CompetencySentence(competencyLead, Competencies(s), limit);
    var a := AchievementSentence(achievementLead, KeyAchievements(s));
    assert r == intro + (c + a);
    if |KeyAchievements(s)| > 0 {
      assert r[|r| - 1] == a[|a| - 1] == '.';
    } else if |Competencies(s)| > 0 {
      assert r == intro + c;
      assert r[|r| - 1] == c[|c| - 1] == ' ';
    } else {
      assert r == intro;
      assert r[|r| - 1] == intro[|intro| - 1] == ' ';
    }
  }

  /**
    The summary reads only the years, the first `limit` competencies and the
    first achievement: profiles agreeing on those get the same summary.
  */
  lemma ComposeReadsLeadersOnly(intro: string, competencyLead: string, limit: nat, achievementLead: string,
                                s: Option<ProfessionalSummary>, t: Option<ProfessionalSummary>)
    requires limit > 0
    requires Take(Competencies(s), limit) == Take(Competencies(t), limit)
    requires |KeyAchievements(s)| > 0 <==> |KeyAchievements(t)| > 0
    requires |KeyAchievements(s)| > 0 ==> KeyAchievements(s)[0] == KeyAchievements(t)[0]
    ensures Compose(intro, competencyLead, limit, achievementLead, s)
         == Compose(intro, competencyLead, limit, achievementLead, t)
  {
    assert |Competencies(s)| > 0 <==> |Take(Competencies(s), limit)| > 0;
    assert |Competencies(t)| > 0 <==> |Take(Competencies(t), limit)| > 0;
  }

  /** The fresher summary depends on the years, the first three competencies and the first achievement only. */
  lemma FresherSummaryReadsLeadersOnly(s: Option<ProfessionalSummary>, t: Option<ProfessionalSummary>, role: TargetRole)
    requires Years(s) == Years(t)
    requires Take(Competencies(s), 3) == Take(Competencies(t), 3)
    requires |KeyAchievements(s)| > 0 <==> |KeyAchievements(t)| > 0
    requires |KeyAchievements(s)| > 0 ==> KeyAchievements(s)[0] == KeyAchievements(t)[0]
    ensures FresherSummary(s, role) == FresherSummary(t, role)
  {
    ComposeReadsLeadersOnly(FresherIntro(Years(s), role), "Proficient in ", 3, "Demonstrated ability to ", s, t);
  }

  /** The experienced summary depends on the years, the first four competencies and the first achievement only. */
  lemma ExperiencedSummaryReadsLeadersOnly(s: Option<ProfessionalSummary>, t: Option<ProfessionalSummary>,
                                           role: TargetRole)
    requires Years(s) == Years(t)
    requires Take(Competencies(s), 4) == Take(Competencies(t), 4)
    requires |KeyAchievements(s)| > 0 <==> |KeyAchievements(t)| > 0
    requires |KeyAchievements(s)| > 0 ==> KeyAchievements(s)[0] == KeyAchievements(t)[0]
    ensures ExperiencedSummary(s, role) == ExperiencedSummary(t, role)
  {
    ComposeReadsLeadersOnly(ExperiencedIntro(Years(s), role), "Core competencies include ", 4,
                            "Proven track record of ", s, t);
  }

  /** The years figure in the fresher introduction reads back as the years given. */
  lemma FresherYearsReadBack(years: nat, role: TargetRole)
    ensures var digits := FresherIntro(years, role)[21..21 + |NatToString(years)|];
      (forall k :: 0 <= k < |digits| ==> IsDigit(digits[k])) && ParseDigits(digits) == years
  {
    var intro := FresherIntro(years, role);
    var lead := "Recent graduate with ";
    assert |lead| == 21;
    assert intro == lead + NatToString(years) + (" years of experience seeking " + role.position + " position. ");
    assert intro[21..21 + |NatToString(years)|] == NatToString(years);
    ParseNatToString(years);
  }
}
