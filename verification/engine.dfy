/**
  `generateResume`: all or nothing. A profile with any validation error
  yields the joined error messages (the source throws them); otherwise the
  resume carries the summary, the sections, the score and the warnings.
*/
module Engine {
  import opened Wrappers
  import opened Text
  import opened Lists
  import opened Profile
  import opened Bullet
  import opened Validation
  import opened Summary
  import opened Sections
  import opened Score

  datatype Resume = Resume(
    personalInfo: PersonalInfo,
    professionalSummary: string,
    sections: seq<Section>,
    atsScore: nat,
    warnings: seq<string>)

  const ErrorPrefix: string := "Validation errors: "

  /**
    The resume carries the profile's own data: its personal details, the
    score of the profile, the summary laid out by the template of its
    candidate type, and sections in the type's order, each built from the
    profile.
  */
  ghost predicate BuiltResume(p: CandidateProfile, rng: Rng, r: Resume) {
    && r.personalInfo == p.personalInfo
    && r.atsScore == CalculateATSScore(p) && r.atsScore <= MaxScore
    && (p.candidateType == "fresher" ==>
          Summarises(r.professionalSummary, FresherIntro(Years(p.professionalSummary), p.targetRole),
                     "Proficient in ", 3, "Demonstrated ability to ", p.professionalSummary))
    && (p.candidateType != "fresher" ==>
          Summarises(r.professionalSummary, ExperiencedIntro(Years(p.professionalSummary), p.targetRole),
                     "Core competencies include ", 4, "Proven track record of ", p.professionalSummary))
    && IsSubsequence(Titles(r.sections), OrderFor(p))
    && (forall s :: s in r.sections ==> BuiltFrom(p, rng, s))
  }

  /** A resume built from the profile carries exactly `generateProfessionalSummary(data)`. */
  lemma BuiltSummaryIsGenerated(p: CandidateProfile, rng: Rng, r: Resume)
    requires BuiltResume(p, rng, r)
    ensures r.professionalSummary == GenerateProfessionalSummary(p)
  {
    var s, years := p.professionalSummary, Years(p.professionalSummary);
    if p.candidateType == "fresher" {
      SummarisesDetermined(r.professionalSummary, GenerateProfessionalSummary(p), FresherIntro(years, p.targetRole),
                           "Proficient in ", 3, "Demonstrated ability to ", s);
    } else {
      SummarisesDetermined(r.professionalSummary, GenerateProfessionalSummary(p), ExperiencedIntro(years, p.targetRole),
                           "Core competencies include ", 4, "Proven track record of ", s);
    }
  }

  /** The resume object of a profile that passed validation. */
  function Assemble(p: CandidateProfile, rng: Rng, warnings: seq<string>): (r: Resume)
    ensures BuiltResume(p, rng, r) && r.warnings == warnings
  {
    Resume(p.personalInfo, GenerateProfessionalSummary(p), GenerateSections(p, rng, 0).value, CalculateATSScore(p),
           warnings)
  }

  /** `generateResume(data)`; the section builders draw from `rng` starting at draw 0. */
  function GenerateResume(p: CandidateProfile, rng: Rng): (r: Result<Resume, string>)
    ensures r.Failure? <==> ValidateInputData(p).errors != []
    ensures r.Failure? ==> ErrorPrefix <= r.error
    ensures r.Success? ==> r.value.warnings == ValidateInputData(p).warnings
    ensures r.Success? ==> BuiltResume(p, rng, r.value)
  {
    var validation := ValidateInputData(p);
    if |validation.errors| > 0 then
      Failure(ErrorPrefix + Join(validation.errors, ", "))
    else
      Success(Assemble(p, rng, validation.warnings))
  }

  /** Every validation error is spelled out in the failure message. */
  lemma FailureNamesEveryError(p: CandidateProfile, rng: Rng)
    requires ValidateInputData(p).errors != []
    ensures forall e :: e in ValidateInputData(p).errors ==> Contains(GenerateResume(p, rng).error, e)
  {
    var errors := ValidateInputData(p).errors;
    JoinedInMiddle(ErrorPrefix, errors, ", ", []);
    assert GenerateResume(p, rng).error == ErrorPrefix + Join(errors, ", ") + [];
  }

  /** A profile without an email is always rejected, and the message says why. */
  lemma MissingEmailRejected(p: CandidateProfile, rng: Rng)
    requires p.personalInfo.email == []
    ensures GenerateResume(p, rng).Failure?
    ensures Contains(GenerateResume(p, rng).error, EmailRequired)
  {
    FailureNamesEveryError(p, rng);
  }

  /** A valid profile yields a resume whose summary follows its candidate type and whose sections follow its order. */
  lemma AcceptedResumeShape(p: CandidateProfile, rng: Rng)
    requires p.personalInfo.name != [] && p.personalInfo.email != []
    requires IsKnownType(p.candidateType) && p.targetRole.position != []
    ensures GenerateResume(p, rng).Success?
    ensures p.candidateType == "fresher" ==> "Recent graduate with " <= GenerateResume(p, rng).value.professionalSummary
    ensures p.candidateType == "experienced" ==> "Experienced " <= GenerateResume(p, rng).value.professionalSummary
    ensures forall t :: t in Titles(GenerateResume(p, rng).value.sections) <==> t in OrderFor(p) && HasDataFor(p, t)
    ensures IsSubsequence(Titles(GenerateResume(p, rng).value.sections), OrderFor(p))
  {
    SectionsPresent(p, rng, 0);
  }
}
