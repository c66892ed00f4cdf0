/**
  The candidate profile the engine consumes. A text field that is missing
  and one that is empty are both falsy in the source and are both the
  empty string here; an absent list and an empty one are both `[]`.
*/
module Profile {
  import opened Wrappers

  datatype PersonalInfo = PersonalInfo(
    name: string,
    email: string,
    phone: string,
    location: string,
    linkedin: string,
    github: string,
    portfolio: string)

  datatype TargetRole = TargetRole(position: string, industry: string, keySkills: seq<string>)

  /** An XYZ triple: situation, action, result. */
  datatype Achievement = Achievement(x: string, y: string, z: string)

  /** `professional_summary`; `years_experience || 0` is `yearsExperience`. */
  datatype ProfessionalSummary = ProfessionalSummary(
    yearsExperience: nat,
    coreCompetencies: seq<string>,
    keyAchievements: seq<Achievement>)

  datatype Experience = Experience(
    position: string,
    organization: string,
    location: string,
    startDate: string,
    endDate: string,
    achievements: seq<Achievement>)

  datatype Project = Project(
    name: string,
    description: string,
    technologies: seq<string>,
    achievements: seq<Achievement>)

  datatype Education = Education(degree: string, major: string, institution: string, location: string, graduationDate: string)

  datatype Certification = Certification(name: string, issuingOrganization: string, dateObtained: string)

  /** `additional_sections.technical_skills`, each list defaulting to `[]`. */
  datatype TechnicalSkills = TechnicalSkills(
    programmingLanguages: seq<string>,
    frameworks: seq<string>,
    databases: seq<string>,
    tools: seq<string>,
    cloudPlatforms: seq<string>)

  datatype CandidateProfile = CandidateProfile(
    personalInfo: PersonalInfo,
    candidateType: string,
    targetRole: TargetRole,
    professionalSummary: Option<ProfessionalSummary>,
    experience: seq<Experience>,
    projects: seq<Project>,
    education: seq<Education>,
    certifications: seq<Certification>,
    technicalSkills: Option<TechnicalSkills>,
    jobDescription: string)
}
