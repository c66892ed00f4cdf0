/**
  `calculateATSScore`: a completeness score out of a fixed maximum of 100.
  The maximum is the constant 100, so `Math.round(score / maxScore * 100)`
  is the raw sum itself.
*/
module Score {
  import opened Wrappers
  import opened Profile

  const MaxScore: nat := 100

  /** The candidate's main body of work is present: experience for the experienced, projects for freshers. */
  predicate HasBodyOfWork(p: CandidateProfile) {
    (p.candidateType == "experienced" && |p.experience| > 0) ||
    (p.candidateType == "fresher" && |p.projects| > 0)
  }

  /** `weight` when `present`, else nothing. */
  function Points(present: bool, weight: nat): nat {
    if present then weight else 0
  }

  /** `calculateATSScore(data)`. */
  function CalculateATSScore(p: CandidateProfile): (score: nat)
    ensures score <= MaxScore
    ensures score % 5 == 0
  {
    var score :=
      Points(p.personalInfo.name != [], 5) +
      Points(p.personalInfo.email != [], 5) +
      Points(p.personalInfo.phone != [], 5) +
      Points(p.personalInfo.location != [], 5) +
      Points(p.professionalSummary.Some?, 15) +
      Points(HasBodyOfWork(p), 25) +
      Points(|p.education| > 0, 15) +
      Points(p.technicalSkills.Some?, 15) +
      Points(|p.certifications| > 0, 10);
    ScoreInFives(p, score);
    score
  }

  /** The weights are multiples of five summing to 100. */
  lemma ScoreInFives(p: CandidateProfile, score: nat)
    requires score == Points(p.personalInfo.name != [], 5) + Points(p.personalInfo.email != [], 5) +
                      Points(p.personalInfo.phone != [], 5) + Points(p.personalInfo.location != [], 5) +
                      Points(p.professionalSummary.Some?, 15) + Points(HasBodyOfWork(p), 25) +
                      Points(|p.education| > 0, 15) + Points(p.technicalSkills.Some?, 15) +
                      Points(|p.certifications| > 0, 10)
    ensures score <= MaxScore && score % 5 == 0
  {
    var units :=
      Points(p.personalInfo.name != [], 1) + Points(p.personalInfo.email != [], 1) +
      Points(p.personalInfo.phone != [], 1) + Points(p.personalInfo.location != [], 1) +
      Points(p.professionalSummary.Some?, 3) + Points(HasBodyOfWork(p), 5) +
      Points(|p.education| > 0, 3) + Points(p.technicalSkills.Some?, 3) +
      Points(|p.certifications| > 0, 2);
    assert score == 5 * units;
  }

  /** Every scored part of the profile is filled in. */
  predicate FullyPopulated(p: CandidateProfile) {
    && p.personalInfo.name != [] && p.personalInfo.email != []
    && p.personalInfo.phone != [] && p.personalInfo.location != []
    && p.professionalSummary.Some?
    && HasBodyOfWork(p)
    && |p.education| > 0
    && p.technicalSkills.Some?
    && |p.certifications| > 0
  }

  /** The score is 100 exactly for a fully populated profile. */
  lemma FullScoreIffPopulated(p: CandidateProfile)
    ensures CalculateATSScore(p) == MaxScore <==> FullyPopulated(p)
  {
  }

  /** `q` has every scored part that `p` has. */
  predicate AtLeastAsComplete(q: CandidateProfile, p: CandidateProfile) {
    && (p.personalInfo.name != [] ==> q.personalInfo.name != [])
    && (p.personalInfo.email != [] ==> q.personalInfo.email != [])
    && (p.personalInfo.phone != [] ==> q.personalInfo.phone != [])
    && (p.personalInfo.location != [] ==> q.personalInfo.location != [])
    && (p.professionalSummary.Some? ==> q.professionalSummary.Some?)
    && (HasBodyOfWork(p) ==> HasBodyOfWork(q))
    && (|p.education| > 0 ==> |q.education| > 0)
    && (p.technicalSkills.Some? ==> q.technicalSkills.Some?)
    && (|p.certifications| > 0 ==> |q.certifications| > 0)
  }

  /** Filling in more of the profile never lowers the score. */
  lemma ScoreMonotone(p: CandidateProfile, q: CandidateProfile)
    requires AtLeastAsComplete(q, p)
    ensures CalculateATSScore(p) <= CalculateATSScore(q)
  {
    ScoreIsSum(p);
    ScoreIsSum(q);
    WeightsMonotone(
      p.personalInfo.name != [], p.personalInfo.email != [], p.personalInfo.phone != [],
      p.personalInfo.location != [], p.professionalSummary.Some?, HasBodyOfWork(p),
      |p.education| > 0, p.technicalSkills.Some?, |p.certifications| > 0,
      q.personalInfo.name != [], q.personalInfo.email != [], q.personalInfo.phone != [],
      q.personalInfo.location != [], q.professionalSummary.Some?, HasBodyOfWork(q),
      |q.education| > 0, q.technicalSkills.Some?, |q.certifications| > 0);
  }

  lemma ScoreIsSum(p: CandidateProfile)
    ensures CalculateATSScore(p) ==
      Points(p.personalInfo.name != [], 5) + Points(p.personalInfo.email != [], 5) +
      Points(p.personalInfo.phone != [], 5) + Points(p.personalInfo.location != [], 5) +
      Points(p.professionalSummary.Some?, 15) + Points(HasBodyOfWork(p), 25) +
      Points(|p.education| > 0, 15) + Points(p.technicalSkills.Some?, 15) +
      Points(|p.certifications| > 0, 10)
  {
  }

  /** The weighted sum only grows when parts are switched on. */
  lemma WeightsMonotone(a1: bool, a2: bool, a3: bool, a4: bool, a5: bool, a6: bool, a7: bool, a8: bool, a9: bool,
                        b1: bool, b2: bool, b3: bool, b4: bool, b5: bool, b6: bool, b7: bool, b8: bool, b9: bool)
    requires (a1 ==> b1) && (a2 ==> b2) && (a3 ==> b3) && (a4 ==> b4) && (a5 ==> b5)
    requires (a6 ==> b6) && (a7 ==> b7) && (a8 ==> b8) && (a9 ==> b9)
    ensures Points(a1, 5) + Points(a2, 5) + Points(a3, 5) + Points(a4, 5) + Points(a5, 15) +
            Points(a6, 25) + Points(a7, 15) + Points(a8, 15) + Points(a9, 10)
         <= Points(b1, 5) + Points(b2, 5) + Points(b3, 5) + Points(b4, 5) + Points(b5, 15) +
            Points(b6, 25) + Points(b7, 15) + Points(b8, 15) + Points(b9, 10)
  {
    assert Points(a1, 5) <= Points(b1, 5) && Points(a2, 5) <= Points(b2, 5);
    assert Points(a3, 5) <= Points(b3, 5) && Points(a4, 5) <= Points(b4, 5);
    assert Points(a5, 15) <= Points(b5, 15) && Points(a6, 25) <= Points(b6, 25);
    assert Points(a7, 15) <= Points(b7, 15) && Points(a8, 15) <= Points(b8, 15);
    assert Points(a9, 10) <= Points(b9, 10);
  }

  /** Each part is worth its fixed weight: dropping the certifications costs exactly 10 points. */
  lemma CertificationsWorthTen(p: CandidateProfile)
    requires |p.certifications| > 0
    ensures CalculateATSScore(p.(certifications := [])) == CalculateATSScore(p) - 10
  {
  }

  /** An experienced candidate's projects do not count towards the body-of-work points, nor a fresher's experience. */
  lemma BodyOfWorkFollowsType(p: CandidateProfile, experience: seq<Experience>, projects: seq<Project>)
    ensures p.candidateType == "experienced" ==>
      CalculateATSScore(p.(projects := projects)) == CalculateATSScore(p)
    ensures p.candidateType == "fresher" ==>
      CalculateATSScore(p.(experience := experience)) == CalculateATSScore(p)
  {
  }
}
