/**
  `generateSections` and the per-section builders. A builder yields no
  section (`null` in the source, `None` here) when its data is absent or
  empty; the list keeps the present sections in a fixed order that depends
  on the candidate type. The experience and project builders run every
  achievement through `generateXYZBullet` and so consume draws; experience
  draws first.
*/
module Sections {
  import opened Wrappers
  import opened Lists
  import opened Profile
  import opened Bullet

  /** An experience entry with its achievements replaced by formatted bullets (`{...exp, achievements}`). */
  datatype FormattedExperience = FormattedExperience(entry: Experience, bullets: seq<GeneratedBullet>)

  /** A project entry with its achievements replaced by formatted bullets. */
  datatype FormattedProject = FormattedProject(entry: Project, bullets: seq<GeneratedBullet>)

  datatype Section =
    | SkillsSection(skills: TechnicalSkills)
    | ExperienceSection(experiences: seq<FormattedExperience>)
    | ProjectsSection(projects: seq<FormattedProject>)
    | EducationSection(education: seq<Education>)
    | CertificationsSection(certifications: seq<Certification>)

  const SkillsTitle: string := "Technical Skills"
  const ExperienceTitle: string := "Professional Experience"
  const ProjectsTitle: string := "Projects"
  const EducationTitle: string := "Education"
  const CertificationsTitle: string := "Certifications"

  /** The `title` field of each section. */
  function Title(s: Section): string {
    match s
    case SkillsSection(_) => SkillsTitle
    case ExperienceSection(_) => ExperienceTitle
    case ProjectsSection(_) => ProjectsTitle
    case EducationSection(_) => EducationTitle
    case CertificationsSection(_) => CertificationsTitle
  }

  function Titles(sections: seq<Section>): (ts: seq<string>)
    ensures |ts| == |sections|
    ensures forall i :: 0 <= i < |ts| ==> ts[i] == Title(sections[i])
  {
    seq(|sections|, i requires 0 <= i < |sections| => Title(sections[i]))
  }

  /** Section order for freshers. */
  const FresherOrder: seq<string> := [SkillsTitle, ProjectsTitle, EducationTitle, CertificationsTitle]

  /** Section order for every other candidate type. */
  const ExperiencedOrder: seq<string> :=
    [SkillsTitle, ExperienceTitle, ProjectsTitle, EducationTitle, CertificationsTitle]

  /** `generateTechnicalSkillsSection(data)`. */
  function TechnicalSkillsSection(p: CandidateProfile): (s: Option<Section>)
    ensures s.Some? <==> p.technicalSkills.Some?
    ensures s.Some? ==> s.value == SkillsSection(p.technicalSkills.value)
  {
    match p.technicalSkills
    case None => None
    case Some(t) => Some(SkillsSection(t))
  }

  /** `f` is entry `e` with achievement `i` replaced by its bullet, for every `i`. */
  ghost predicate ExperienceFormatted(e: Experience, rng: Rng, f: FormattedExperience) {
    && f.entry == e && |f.bullets| == |e.achievements|
    && forall i :: 0 <= i < |e.achievements| ==> BulletOf(e.achievements[i], rng, f.bullets[i])
  }

  /** `f` is project `q` with achievement `i` replaced by its bullet, for every `i`. */
  ghost predicate ProjectFormatted(q: Project, rng: Rng, f: FormattedProject) {
    && f.entry == q && |f.bullets| == |q.achievements|
    && forall i :: 0 <= i < |q.achievements| ==> BulletOf(q.achievements[i], rng, f.bullets[i])
  }

  /** One experience entry with its achievements formatted, the first at draw `k`. */
  function FormatExperience(e: Experience, rng: Rng, k: nat): (d: Drawn<FormattedExperience>)
    ensures ExperienceFormatted(e, rng, d.value)
    ensures e.achievements != [] ==>
      var a := e.achievements[0];
      d.value.bullets[0] == GenerateXYZBullet(a.x, a.y, a.z, DefaultOptions(), rng, k).value
  {
    var bullets := FormatAchievements(e.achievements, rng, k);
    Drawn(FormattedExperience(e, bullets.value), bullets.next)
  }

  /** One project entry with its achievements formatted, the first at draw `k`. */
  function FormatProject(q: Project, rng: Rng, k: nat): (d: Drawn<FormattedProject>)
    ensures ProjectFormatted(q, rng, d.value)
    ensures q.achievements != [] ==>
      var a := q.achievements[0];
      d.value.bullets[0] == GenerateXYZBullet(a.x, a.y, a.z, DefaultOptions(), rng, k).value
  {
    var bullets := FormatAchievements(q.achievements, rng, k);
    Drawn(FormattedProject(q, bullets.value), bullets.next)
  }

  function ExperienceStep(rng: Rng): (step: (Experience, nat) -> Drawn<FormattedExperience>) {
    (e: Experience, j: nat) => FormatExperience(e, rng, j)
  }

  function ProjectStep(rng: Rng): (step: (Project, nat) -> Drawn<FormattedProject>) {
    (q: Project, j: nat) => FormatProject(q, rng, j)
  }

  /** Entry `i` of the mapped experience is experience `i` formatted. */
  lemma FormattedExperiences(xs: seq<Experience>, rng: Rng, k: nat)
    ensures forall i :: 0 <= i < |xs| ==> ExperienceFormatted(xs[i], rng, MapDrawing(xs, ExperienceStep(rng), k).value[i])
  {
    var step := ExperienceStep(rng);
    MapDrawingElements(xs, step, k);
    forall i | 0 <= i < |xs|
      ensures ExperienceFormatted(xs[i], rng, MapDrawing(xs, step, k).value[i])
    {
      assert MapDrawing(xs, step, k).value[i] == FormatExperience(xs[i], rng, StepStart(xs, step, k, i)).value;
    }
  }

  /** Entry `i` of the mapped projects is project `i` formatted. */
  lemma FormattedProjects(xs: seq<Project>, rng: Rng, k: nat)
    ensures forall i :: 0 <= i < |xs| ==> ProjectFormatted(xs[i], rng, MapDrawing(xs, ProjectStep(rng), k).value[i])
  {
    var step := ProjectStep(rng);
    MapDrawingElements(xs, step, k);
    forall i | 0 <= i < |xs|
      ensures ProjectFormatted(xs[i], rng, MapDrawing(xs, step, k).value[i])
    {
      assert MapDrawing(xs, step, k).value[i] == FormatProject(xs[i], rng, StepStart(xs, step, k, i)).value;
    }
  }

  /** `generateExperienceSection(data)`: entry `i` is `experience[i]` with its achievements formatted. */
  function ExperienceSectionOf(p: CandidateProfile, rng: Rng, k: nat): (d: Drawn<Option<Section>>)
    ensures d.value.Some? <==> |p.experience| > 0
    ensures d.value.Some? ==> d.value.value.ExperienceSection? && |d.value.value.experiences| == |p.experience|
    ensures d.value.Some? ==> forall i :: 0 <= i < |p.experience| ==>
      ExperienceFormatted(p.experience[i], rng, d.value.value.experiences[i])
    ensures d.value.None? ==> d.next == k
  {
    if |p.experience| == 0 then Drawn(None, k)
    else
      var entries := MapDrawing(p.experience, ExperienceStep(rng), k);
      FormattedExperiences(p.experience, rng, k);
      Drawn(Some(ExperienceSection(entries.value)), entries.next)
  }

  /** `generateProjectsSection(data)`: entry `i` is `projects[i]` with its achievements formatted. */
  function ProjectsSectionOf(p: CandidateProfile, rng: Rng, k: nat): (d: Drawn<Option<Section>>)
    ensures d.value.Some? <==> |p.projects| > 0
    ensures d.value.Some? ==> d.value.value.ProjectsSection? && |d.value.value.projects| == |p.projects|
    ensures d.value.Some? ==> forall i :: 0 <= i < |p.projects| ==>
      ProjectFormatted(p.projects[i], rng, d.value.value.projects[i])
    ensures d.value.None? ==> d.next == k
  {
    if |p.projects| == 0 then Drawn(None, k)
    else
      var entries := MapDrawing(p.projects, ProjectStep(rng), k);
      FormattedProjects(p.projects, rng, k);
      Drawn(Some(ProjectsSection(entries.value)), entries.next)
  }

  /** `generateEducationSection(data)`. */
  function EducationSectionOf(p: CandidateProfile): (s: Option<Section>)
    ensures s.Some? <==> |p.education| > 0
    ensures s.Some? ==> s.value == EducationSection(p.education)
  {
    if |p.education| == 0 then None else Some(EducationSection(p.education))
  }

  /** `generateCertificationsSection(data)`. */
  function CertificationsSectionOf(p: CandidateProfile): (s: Option<Section>)
    ensures s.Some? <==> |p.certifications| > 0
    ensures s.Some? ==> s.value == CertificationsSection(p.certifications)
  {
    if |p.certifications| == 0 then None else Some(CertificationsSection(p.certifications))
  }

  /** `sections.filter(section => section !== null)`. */
  function Present(candidates: seq<Option<Section>>): (r: seq<Section>)
    ensures forall s :: s in r <==> Some(s) in candidates
    decreases |candidates|
  {
    if candidates == [] then []
    else
      var rest := Present(candidates[1..]);
      assert forall o :: o in candidates <==> o == candidates[0] || o in candidates[1..];
      match candidates[0]
      case None => rest
      case Some(s) => [s] + rest
  }

  /** Whether the profile has the data for the section titled `title`. */
  predicate HasDataFor(p: CandidateProfile, title: string) {
    if title == SkillsTitle then p.technicalSkills.Some?
    else if title == ExperienceTitle then |p.experience| > 0
    else if title == ProjectsTitle then |p.projects| > 0
    else if title == EducationTitle then |p.education| > 0
    else |p.certifications| > 0
  }

  /** The section order for the profile's candidate type. */
  function OrderFor(p: CandidateProfile): seq<string> {
    if p.candidateType == "fresher" then FresherOrder else ExperiencedOrder
  }

  /** Slot `o` is filled exactly when the profile has the data for `title`, and then with that section. */
  ghost predicate SlotFits(p: CandidateProfile, o: Option<Section>, title: string) {
    (o.Some? <==> HasDataFor(p, title)) && (o.Some? ==> Title(o.value) == title)
  }

  /** Each builder fills the slot of its own title. */
  lemma BuildersFit(p: CandidateProfile, rng: Rng, k: nat, k': nat)
    ensures SlotFits(p, TechnicalSkillsSection(p), SkillsTitle)
    ensures SlotFits(p, ExperienceSectionOf(p, rng, k).value, ExperienceTitle)
    ensures SlotFits(p, ProjectsSectionOf(p, rng, k').value, ProjectsTitle)
    ensures SlotFits(p, EducationSectionOf(p), EducationTitle)
    ensures SlotFits(p, CertificationsSectionOf(p), CertificationsTitle)
  {
    assert |SkillsTitle| == 16 && |ExperienceTitle| == 23 && |ProjectsTitle| == 8;
    assert |EducationTitle| == 9 && |CertificationsTitle| == 14;
  }

  /**
    The candidate sections, before null filtering, and the next draw: one
    slot per title of the type's order, filled exactly when the profile has
    the data for it.
  */
  function Candidates(p: CandidateProfile, rng: Rng, k: nat): (d: Drawn<seq<Option<Section>>>)
    ensures |d.value| == |OrderFor(p)|
    ensures forall i :: 0 <= i < |d.value| ==>
      (d.value[i].Some? <==> HasDataFor(p, OrderFor(p)[i])) &&
      (d.value[i].Some? ==> Title(d.value[i].value) == OrderFor(p)[i])
  {
    if p.candidateType == "fresher" then
      var projects := ProjectsSectionOf(p, rng, k);
      var slots := [TechnicalSkillsSection(p), projects.value, EducationSectionOf(p), CertificationsSectionOf(p)];
      BuildersFit(p, rng, k, k);
      assert forall i :: 0 <= i < 4 ==> SlotFits(p, slots[i], FresherOrder[i]);
      Drawn(slots, projects.next)
    else
      var experience := ExperienceSectionOf(p, rng, k);
      var projects := ProjectsSectionOf(p, rng, experience.next);
      var slots := [TechnicalSkillsSection(p), experience.value, projects.value, EducationSectionOf(p),
                    CertificationsSectionOf(p)];
      BuildersFit(p, rng, k, experience.next);
      assert forall i :: 0 <= i < 5 ==> SlotFits(p, slots[i], ExperiencedOrder[i]);
      Drawn(slots, projects.next)
  }

  /**
    Section `s` carries the profile's own data: the skills object, every
    experience entry or project in order with its achievements formatted,
    the education list or the certifications list.
  */
  ghost predicate BuiltFrom(p: CandidateProfile, rng: Rng, s: Section) {
    match s
    case SkillsSection(t) => p.technicalSkills == Some(t)
    case ExperienceSection(es) =>
      |es| == |p.experience| && forall i :: 0 <= i < |es| ==> ExperienceFormatted(p.experience[i], rng, es[i])
    case ProjectsSection(ps) =>
      |ps| == |p.projects| && forall i :: 0 <= i < |ps| ==> ProjectFormatted(p.projects[i], rng, ps[i])
    case EducationSection(e) => e == p.education
    case CertificationsSection(c) => c == p.certifications
  }

  /** An empty slot, or one holding a section that carries the profile's data. */
  ghost predicate SlotBuilt(p: CandidateProfile, rng: Rng, o: Option<Section>) {
    o.Some? ==> BuiltFrom(p, rng, o.value)
  }

  /** Every filled slot carries the profile's data. */
  lemma CandidatesBuiltFrom(p: CandidateProfile, rng: Rng, k: nat)
    ensures forall o :: o in Candidates(p, rng, k).value ==> SlotBuilt(p, rng, o)
  {
    var skills, education, certifications := TechnicalSkillsSection(p), EducationSectionOf(p), CertificationsSectionOf(p);
    assert SlotBuilt(p, rng, skills) && SlotBuilt(p, rng, education) && SlotBuilt(p, rng, certifications);
    if p.candidateType == "fresher" {
      var projects := ProjectsSectionOf(p, rng, k).value;
      assert SlotBuilt(p, rng, projects);
      assert Candidates(p, rng, k).value == [skills, projects, education, certifications];
    } else {
      var experience := ExperienceSectionOf(p, rng, k);
      var projects := ProjectsSectionOf(p, rng, experience.next).value;
      assert SlotBuilt(p, rng, experience.value) && SlotBuilt(p, rng, projects);
      assert Candidates(p, rng, k).value == [skills, experience.value, projects, education, certifications];
    }
  }

  /** `generateSections(data)`: the built sections, in the type's order, each carrying the profile's data. */
  function GenerateSections(p: CandidateProfile, rng: Rng, k: nat): (d: Drawn<seq<Section>>)
    ensures IsSubsequence(Titles(d.value), OrderFor(p))
    ensures forall s :: s in d.value ==> BuiltFrom(p, rng, s)
  {
    var c := Candidates(p, rng, k);
    PresentInOrder(c.value, OrderFor(p));
    CandidatesBuiltFrom(p, rng, k);
    assert forall s :: s in Present(c.value) ==> SlotBuilt(p, rng, Some(s));
    Drawn(Present(c.value), c.next)
  }

  /** Dropping the empty slots keeps the sections in slot order. */
  lemma {:induction false} PresentInOrder(candidates: seq<Option<Section>>, order: seq<string>)
    requires |candidates| == |order|
    requires forall i :: 0 <= i < |candidates| && candidates[i].Some? ==> Title(candidates[i].value) == order[i]
    ensures IsSubsequence(Titles(Present(candidates)), order)
    decreases |candidates|
  {
    if candidates != [] {
      var rest := candidates[1..];
      SlotsShift(candidates, order);
      PresentInOrder(rest, order[1..]);
      match candidates[0]
      case None =>
        assert Present(candidates) == Present(rest);
        SubsequenceSkip(Titles(Present(candidates)), order);
      case Some(s) =>
        PresentKeepsHead(candidates, order, s);
    }
  }

  /** The slot condition carries over to the tails. */
  lemma SlotsShift(candidates: seq<Option<Section>>, order: seq<string>)
    requires |candidates| == |order| && candidates != []
    requires forall i :: 0 <= i < |candidates| && candidates[i].Some? ==> Title(candidates[i].value) == order[i]
    ensures forall i :: 0 <= i < |candidates| - 1 && candidates[1..][i].Some? ==> Title(candidates[1..][i].value) == order[1..][i]
  {
    forall i | 0 <= i < |candidates| - 1 && candidates[1..][i].Some?
      ensures Title(candidates[1..][i].value) == order[1..][i]
    {
      assert candidates[1..][i] == candidates[i + 1];
    }
  }

  /** A filled first slot heads the filtered titles, followed by the tail's. */
  lemma PresentKeepsHead(candidates: seq<Option<Section>>, order: seq<string>, s: Section)
    requires |candidates| == |order| && candidates != [] && candidates[0] == Some(s)
    requires Title(s) == order[0]
    requires IsSubsequence(Titles(Present(candidates[1..])), order[1..])
    ensures IsSubsequence(Titles(Present(candidates)), order)
  {
    var rest := Present(candidates[1..]);
    assert Present(candidates) == [s] + rest;
    TitlesCons(s, rest);
    var ts := [Title(s)] + Titles(rest);
    assert ts[1..] == Titles(rest);
  }

  lemma TitlesCons(s: Section, rest: seq<Section>)
    ensures Titles([s] + rest) == [Title(s)] + Titles(rest)
  {
  }

  /** A title is in the filtered list exactly when some non-empty slot carries it. */
  lemma TitlesOfPresent(c: seq<Option<Section>>)
    ensures forall t :: t in Titles(Present(c)) <==> exists i :: 0 <= i < |c| && c[i].Some? && Title(c[i].value) == t
  {
    var sections := Present(c);
    var ts := Titles(sections);
    forall t | t in ts
      ensures exists i :: 0 <= i < |c| && c[i].Some? && Title(c[i].value) == t
    {
      var j :| 0 <= j < |ts| && ts[j] == t;
      assert Some(sections[j]) in c;
    }
    forall i | 0 <= i < |c| && c[i].Some?
      ensures Title(c[i].value) in ts
    {
      assert c[i].value in sections;
      var j :| 0 <= j < |sections| && sections[j] == c[i].value;
      assert ts[j] == Title(c[i].value);
    }
  }

  /** A listed title comes from a non-empty slot. */
  lemma ListedHasSlot(c: seq<Option<Section>>, t: string)
    requires t in Titles(Present(c))
    ensures exists i :: 0 <= i < |c| && c[i].Some? && Title(c[i].value) == t
  {
    TitlesOfPresent(c);
  }

  /** A non-empty slot's title is listed. */
  lemma SlotIsListed(c: seq<Option<Section>>, i: nat)
    requires i < |c| && c[i].Some?
    ensures Title(c[i].value) in Titles(Present(c))
  {
    TitlesOfPresent(c);
  }

  /**
    With one title per slot and no title repeated, a slot's title is listed
    exactly when the slot holds a section; no other title is ever listed.
  */
  lemma SlotPresence(c: seq<Option<Section>>, order: seq<string>)
    requires |c| == |order| && Distinct(order)
    requires forall i :: 0 <= i < |c| && c[i].Some? ==> Title(c[i].value) == order[i]
    ensures forall i :: 0 <= i < |c| ==> (order[i] in Titles(Present(c)) <==> c[i].Some?)
    ensures forall t :: t in Titles(Present(c)) ==> t in order
  {
    forall i | 0 <= i < |c|
      ensures order[i] in Titles(Present(c)) <==> c[i].Some?
    {
      assert forall j :: 0 <= j < |order| && order[j] == order[i] ==> j == i;
      SlotListed(c, order, i);
    }
    ListedInOrder(c, order);
  }

  /** One slot's title is listed exactly when that slot holds a section. */
  lemma SlotListed(c: seq<Option<Section>>, order: seq<string>, i: nat)
    requires |c| == |order| && i < |c|
    requires forall j :: 0 <= j < |order| && order[j] == order[i] ==> j == i
    requires forall i :: 0 <= i < |c| && c[i].Some? ==> Title(c[i].value) == order[i]
    ensures order[i] in Titles(Present(c)) <==> c[i].Some?
  {
    if c[i].Some? {
      SlotIsListed(c, i);
    } else {
      EmptySlotNotListed(c, order, i);
    }
  }

  /** An empty slot's title is not listed, since no other slot carries it. */
  lemma EmptySlotNotListed(c: seq<Option<Section>>, order: seq<string>, i: nat)
    requires |c| == |order| && i < |c| && c[i].None?
    requires forall j :: 0 <= j < |order| && order[j] == order[i] ==> j == i
    requires forall i :: 0 <= i < |c| && c[i].Some? ==> Title(c[i].value) == order[i]
    ensures order[i] !in Titles(Present(c))
  {
    forall j | 0 <= j < |c| && c[j].Some?
      ensures Title(c[j].value) != order[i]
    {
      assert j != i;
    }
    TitlesOfPresent(c);
  }

  /** Only titles of the order are listed. */
  lemma ListedInOrder(c: seq<Option<Section>>, order: seq<string>)
    requires |c| == |order|
    requires forall i :: 0 <= i < |c| && c[i].Some? ==> Title(c[i].value) == order[i]
    ensures forall t :: t in Titles(Present(c)) ==> t in order
  {
    forall t | t in Titles(Present(c))
      ensures t in order
    {
      ListedHasSlot(c, t);
      var j :| 0 <= j < |c| && c[j].Some? && Title(c[j].value) == t;
      assert order[j] == t;
    }
  }

  /** The titles all differ in length, so neither order repeats one. */
  lemma OrdersDistinct()
    ensures Distinct(FresherOrder) && Distinct(ExperiencedOrder)
  {
    assert |SkillsTitle| == 16 && |ExperienceTitle| == 23 && |ProjectsTitle| == 8;
    assert |EducationTitle| == 9 && |CertificationsTitle| == 14;
  }

  /** A section is listed exactly when its title belongs to the type's order and the profile has its data. */
  lemma SectionsPresent(p: CandidateProfile, rng: Rng, k: nat)
    ensures forall t :: t in Titles(GenerateSections(p, rng, k).value) <==> t in OrderFor(p) && HasDataFor(p, t)
  {
    var c := Candidates(p, rng, k).value;
    var order := OrderFor(p);
    assert GenerateSections(p, rng, k).value == Present(c);
    var ts := Titles(Present(c));
    OrdersDistinct();
    SlotPresence(c, order);
    forall t | t in order
      ensures t in ts <==> HasDataFor(p, t)
    {
      var i :| 0 <= i < |order| && order[i] == t;
      assert c[i].Some? <==> HasDataFor(p, order[i]);
    }
  }

  /** Certifications are listed exactly when there are some, whatever the candidate type. */
  lemma CertificationsListed(p: CandidateProfile, rng: Rng, k: nat)
    ensures CertificationsTitle in Titles(GenerateSections(p, rng, k).value) <==> |p.certifications| > 0
  {
    SectionsPresent(p, rng, k);
    assert CertificationsTitle in OrderFor(p);
  }

  /** A fresher's resume never has an experience section, even when experience is given. */
  lemma FresherHasNoExperienceSection(p: CandidateProfile, rng: Rng, k: nat)
    requires p.candidateType == "fresher"
    ensures ExperienceTitle !in Titles(GenerateSections(p, rng, k).value)
  {
    SectionsPresent(p, rng, k);
    OrdersDistinct();
    assert ExperienceTitle !in FresherOrder;
  }
}
