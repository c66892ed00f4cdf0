/**
  `validateInputData`: independent checks, each adding one message to the
  errors or to the warnings. Errors block resume generation; warnings never do.
*/
module Validation {
  import opened Wrappers
  import opened Text
  import opened Profile
  import opened Lists

  datatype ValidationResult = ValidationResult(errors: seq<string>, warnings: seq<string>)

  const NameRequired: string := "Name is required"
  const EmailRequired: string := "Email is required"
  const TypeRequired: string := "Candidate type (experienced/fresher) is required"
  const PositionRequired: string := "Target position is required"
  const TypeInvalid: string := "Candidate type must be 'experienced' or 'fresher'"
  // Written in two pieces only so that the verifier can index into the literal.
  const NoExperience: string := "No professional experience provided" + " for experienced candidate"
  const NoEducation: string := "No education information provided"

  /** `['experienced', 'fresher'].includes(type)`. */
  predicate IsKnownType(t: string) {
    t == "experienced" || t == "fresher"
  }

  /** `[msg]` when `failed`, else nothing. */
  function When(failed: bool, msg: string): seq<string> {
    if failed then [msg] else []
  }

  /** The five error messages in the order the checks run. */
  const ErrorOrder: seq<string> := [NameRequired, EmailRequired, TypeRequired, PositionRequired, TypeInvalid]

  /** The two fixed warnings in the order the checks run. */
  const FixedWarningOrder: seq<string> := [NoExperience, NoEducation]

  /** A message that may be pushed, in front of messages that keep the order of `ms`, keeps the order of `[m] + ms`. */
  lemma WhenInOrder(failed: bool, m: string, rest: seq<string>, ms: seq<string>)
    requires IsSubsequence(rest, ms)
    ensures IsSubsequence(When(failed, m) + rest, [m] + ms)
  {
    assert ([m] + ms)[1..] == ms;
    if failed {
      assert ([m] + rest)[1..] == rest;
    } else {
      assert When(failed, m) + rest == rest;
      SubsequenceSkip(rest, [m] + ms);
    }
  }

  /** An achievement with an empty situation, action or result. */
  predicate Incomplete(a: Achievement) {
    a.x == [] || a.y == [] || a.z == []
  }

  /** The warning for the achievement at 1-based position `n`. */
  function AchievementWarning(n: nat): string {
    "Achievement " + NatToString(n) + " missing XYZ components"
  }

  /** The 1-based positions of the incomplete achievements among the first `n`, ascending. */
  function IncompletePositions(achs: seq<Achievement>, n: nat): (r: seq<nat>)
    requires n <= |achs|
    ensures forall j :: 0 <= j < |r| ==> 1 <= r[j] <= n
    ensures forall j, l :: 0 <= j < l < |r| ==> r[j] < r[l]
  {
    if n == 0 then []
    else IncompletePositions(achs, n - 1) + (if Incomplete(achs[n - 1]) then [n] else [])
  }

  /** Every listed position holds an incomplete achievement. */
  lemma {:induction false} IncompletePositionsSound(achs: seq<Achievement>, n: nat)
    requires n <= |achs|
    ensures forall j :: 0 <= j < |IncompletePositions(achs, n)| ==> Incomplete(achs[IncompletePositions(achs, n)[j] - 1])
  {
    if n > 0 {
      IncompletePositionsSound(achs, n - 1);
      var prev := IncompletePositions(achs, n - 1);
      var r := IncompletePositions(achs, n);
      assert forall j :: 0 <= j < |prev| ==> r[j] == prev[j];
    }
  }

  /** Every incomplete achievement among the first `n` is listed. */
  lemma {:induction false} IncompletePositionsComplete(achs: seq<Achievement>, n: nat)
    requires n <= |achs|
    ensures forall m: nat :: 1 <= m <= n && Incomplete(achs[m - 1]) ==> m in IncompletePositions(achs, n)
  {
    if n > 0 {
      IncompletePositionsComplete(achs, n - 1);
      var prev := IncompletePositions(achs, n - 1);
      assert IncompletePositions(achs, n) == prev + (if Incomplete(achs[n - 1]) then [n] else []);
    }
  }

  /** One warning per incomplete achievement, in index order. */
  function AchievementWarnings(achs: seq<Achievement>): (ws: seq<string>)
    ensures |ws| == |IncompletePositions(achs, |achs|)|
    ensures forall j :: 0 <= j < |ws| ==> ws[j] == AchievementWarning(IncompletePositions(achs, |achs|)[j])
  {
    var ps := IncompletePositions(achs, |achs|);
    seq(|ps|, j requires 0 <= j < |ps| => AchievementWarning(ps[j]))
  }

  function KeyAchievements(p: CandidateProfile): seq<Achievement> {
    match p.professionalSummary
    case None => []
    case Some(s) => s.keyAchievements
  }

  /** The errors `validateInputData` collects: one per missing required field, and one for an unknown type. */
  function Errors(p: CandidateProfile): (errors: seq<string>)
    ensures NameRequired in errors <==> p.personalInfo.name == []
    ensures EmailRequired in errors <==> p.personalInfo.email == []
    ensures TypeRequired in errors <==> p.candidateType == []
    ensures PositionRequired in errors <==> p.targetRole.position == []
    ensures TypeInvalid in errors <==> p.candidateType != [] && !IsKnownType(p.candidateType)
    ensures errors == [] <==>
      p.personalInfo.name != [] && p.personalInfo.email != [] &&
      IsKnownType(p.candidateType) && p.targetRole.position != []
    ensures IsSubsequence(errors, ErrorOrder)
  {
    ChecksInOrder(p.personalInfo.name == [], p.personalInfo.email == [], p.candidateType == [],
                  p.targetRole.position == [], p.candidateType != [] && !IsKnownType(p.candidateType));
    ChecksFound(p.personalInfo.name == [], p.personalInfo.email == [], p.candidateType == [],
                p.targetRole.position == [], p.candidateType != [] && !IsKnownType(p.candidateType));
    When(p.personalInfo.name == [], NameRequired) +
    (When(p.personalInfo.email == [], EmailRequired) +
     (When(p.candidateType == [], TypeRequired) +
      (When(p.targetRole.position == [], PositionRequired) +
       When(p.candidateType != [] && !IsKnownType(p.candidateType), TypeInvalid))))
  }

  /** Each message is in the list exactly when its check failed. */
  lemma ChecksFound(name: bool, email: bool, kind: bool, position: bool, invalid: bool)
    ensures var errors := When(name, NameRequired) + (When(email, EmailRequired) + (When(kind, TypeRequired)
                            + (When(position, PositionRequired) + When(invalid, TypeInvalid))));
      && (NameRequired in errors <==> name) && (EmailRequired in errors <==> email)
      && (TypeRequired in errors <==> kind) && (PositionRequired in errors <==> position)
      && (TypeInvalid in errors <==> invalid)
      && (errors == [] <==> !name && !email && !kind && !position && !invalid)
  {
    ErrorOrderDistinct();
  }

  /** Whatever the five checks find, their messages come in check order. */
  lemma ChecksInOrder(name: bool, email: bool, kind: bool, position: bool, invalid: bool)
    ensures IsSubsequence(When(name, NameRequired) + (When(email, EmailRequired) + (When(kind, TypeRequired)
                            + (When(position, PositionRequired) + When(invalid, TypeInvalid)))), ErrorOrder)
  {
    var e5 := When(invalid, TypeInvalid) + [];
    assert e5 == When(invalid, TypeInvalid);
    var e4 := When(position, PositionRequired) + e5;
    var e3 := When(kind, TypeRequired) + e4;
    var e2 := When(email, EmailRequired) + e3;
    WhenInOrder(invalid, TypeInvalid, [], []);
    WhenInOrder(position, PositionRequired, e5, [TypeInvalid]);
    WhenInOrder(kind, TypeRequired, e4, [PositionRequired, TypeInvalid]);
    WhenInOrder(email, EmailRequired, e3, [TypeRequired, PositionRequired, TypeInvalid]);
    WhenInOrder(name, NameRequired, e2, [EmailRequired, TypeRequired, PositionRequired, TypeInvalid]);
  }

  /** The warnings `validateInputData` collects: missing experience, missing education, then the achievements. */
  function Warnings(p: CandidateProfile): (warnings: seq<string>)
    ensures NoExperience in warnings <==> p.candidateType == "experienced" && p.experience == []
    ensures NoEducation in warnings <==> p.education == []
    ensures warnings[(if NoExperience in warnings then 1 else 0) + (if NoEducation in warnings then 1 else 0)..]
      == AchievementWarnings(KeyAchievements(p))
    ensures IsSubsequence(
      warnings[..(if NoExperience in warnings then 1 else 0) + (if NoEducation in warnings then 1 else 0)],
      FixedWarningOrder)
  {
    var education := When(p.education == [], NoEducation);
    var head := When(p.candidateType == "experienced" && p.experience == [], NoExperience) + education;
    var achievements := AchievementWarnings(KeyAchievements(p));
    WarningsDistinct(KeyAchievements(p));
    WhenInOrder(p.education == [], NoEducation, [], []);
    WhenInOrder(p.candidateType == "experienced" && p.experience == [], NoExperience, education, [NoEducation]);
    assert |head| == (if NoExperience in head then 1 else 0) + (if NoEducation in head then 1 else 0);
    assert (head + achievements)[..|head|] == head;
    head + achievements
  }

  /** `validateInputData(data)`. */
  function ValidateInputData(p: CandidateProfile): (v: ValidationResult)
    ensures NameRequired in v.errors <==> p.personalInfo.name == []
    ensures EmailRequired in v.errors <==> p.personalInfo.email == []
    ensures TypeRequired in v.errors <==> p.candidateType == []
    ensures PositionRequired in v.errors <==> p.targetRole.position == []
    ensures TypeInvalid in v.errors <==> p.candidateType != [] && !IsKnownType(p.candidateType)
    ensures v.errors == [] <==>
      p.personalInfo.name != [] && p.personalInfo.email != [] &&
      IsKnownType(p.candidateType) && p.targetRole.position != []
    ensures IsSubsequence(v.errors, ErrorOrder)
    ensures NoExperience in v.warnings <==> p.candidateType == "experienced" && p.experience == []
    ensures NoEducation in v.warnings <==> p.education == []
    ensures v.warnings[(if NoExperience in v.warnings then 1 else 0) + (if NoEducation in v.warnings then 1 else 0)..]
      == AchievementWarnings(KeyAchievements(p))
    ensures IsSubsequence(
      v.warnings[..(if NoExperience in v.warnings then 1 else 0) + (if NoEducation in v.warnings then 1 else 0)],
      FixedWarningOrder)
  {
    ValidationResult(Errors(p), Warnings(p))
  }

  /** The five error messages are pairwise different. */
  lemma ErrorOrderDistinct()
    ensures Distinct(ErrorOrder)
  {
    assert |NameRequired| == 16 && |EmailRequired| == 17 && |TypeRequired| == 48;
    assert |PositionRequired| == 27 && |TypeInvalid| == 49;
  }

  /**
    The error list is fixed by which messages it holds: any list that
    keeps the check order and holds the same messages is that list, so
    no message is repeated and none is out of place.
  */
  lemma ErrorsDetermined(p: CandidateProfile, errors: seq<string>)
    requires IsSubsequence(errors, ErrorOrder)
    requires forall m :: m in errors <==> m in Errors(p)
    ensures errors == Errors(p)
  {
    ErrorOrderDistinct();
    SubsequenceDetermined(errors, Errors(p), ErrorOrder);
  }

  /** No achievement warning coincides with the experience or education warning. */
  lemma WarningsDistinct(achs: seq<Achievement>)
    ensures NoExperience !in AchievementWarnings(achs)
    ensures NoEducation !in AchievementWarnings(achs)
  {
    var ws := AchievementWarnings(achs);
    forall j | 0 <= j < |ws|
      ensures ws[j] != NoExperience && ws[j] != NoEducation
    {
      assert AchievementWarning(IncompletePositions(achs, |achs|)[j])[0] == 'A';
      assert NoExperience[0] == 'N';
      assert NoEducation[0] == 'N';
    }
  }

  /** Distinct positions give distinct warnings. */
  lemma AchievementWarningInjective(m: nat, n: nat)
    ensures AchievementWarning(m) == AchievementWarning(n) <==> m == n
  {
    if AchievementWarning(m) == AchievementWarning(n) {
      var a, b := NatToString(m), NatToString(n);
      var prefix := "Achievement ";
      assert |a| == |b|;
      assert AchievementWarning(m)[|prefix|..|prefix| + |a|] == a;
      assert AchievementWarning(n)[|prefix|..|prefix| + |b|] == b;
      NatToStringInjective(m, n);
    }
  }

  /** The warning naming achievement `n` appears exactly when that achievement is incomplete. */
  lemma AchievementWarningFor(achs: seq<Achievement>, n: nat)
    ensures AchievementWarning(n) in AchievementWarnings(achs) <==> 1 <= n <= |achs| && Incomplete(achs[n - 1])
  {
    var ps := IncompletePositions(achs, |achs|);
    var ws := AchievementWarnings(achs);
    IncompletePositionsSound(achs, |achs|);
    IncompletePositionsComplete(achs, |achs|);
    if AchievementWarning(n) in ws {
      var j :| 0 <= j < |ws| && ws[j] == AchievementWarning(n);
      AchievementWarningInjective(ps[j], n);
    }
    if 1 <= n <= |achs| && Incomplete(achs[n - 1]) {
      assert n in ps;
      var j :| 0 <= j < |ps| && ps[j] == n;
      assert ws[j] == AchievementWarning(n);
    }
  }

  /** No achievement is warned about twice. */
  lemma AchievementWarningsDistinct(achs: seq<Achievement>)
    ensures forall j, l :: 0 <= j < l < |AchievementWarnings(achs)| ==>
      AchievementWarnings(achs)[j] != AchievementWarnings(achs)[l]
  {
    var ps := IncompletePositions(achs, |achs|);
    var ws := AchievementWarnings(achs);
    forall j, l | 0 <= j < l < |ws|
      ensures ws[j] != ws[l]
    {
      AchievementWarningInjective(ps[j], ps[l]);
    }
  }

  /** Warnings alone never make the profile invalid: errors depend on the four required fields and the type only. */
  lemma WarningsNeverBlock(p: CandidateProfile, experience: seq<Experience>, education: seq<Education>,
                           summary: Option<ProfessionalSummary>)
    ensures ValidateInputData(p).errors
      == ValidateInputData(p.(experience := experience, education := education, professionalSummary := summary)).errors
  {
  }
}
