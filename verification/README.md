# XYZ resume engine, modelled in Dafny

This project models the rule-based resume engine `XYZResumeEngine`. The engine turns a candidate profile into a resume whose bullets follow the XYZ pattern: "accomplished X, as measured by Y, by doing Z". The model covers these parts of the engine:

- input validation: errors block generation, warnings are only reported;
- text normalisation: pronoun removal and phrase conversion;
- quantification detection and canned impact phrases;
- strong-action-verb enforcement from a fixed vocabulary;
- XYZ bullet assembly;
- the fresher and experienced summary templates;
- closed-vocabulary keyword extraction and skill augmentation;
- section construction with empty sections filtered out;
- the fixed-weight completeness score;
- the all-or-nothing `generateResume`.

From the browser front end it models two pieces: the HTML escaper `escapeHtml`, and the index arithmetic of the tab navigation (`switchTab`, `previousTab`, `nextTab`, `updateTabButtons`). The tab operations take the tab list as a parameter, and their properties hold for any list of distinct names; the application's seven-tab list is one such list.

Modelling choices:

- **Missing and empty values.**
  - A missing text field and an empty one are both the empty string here. The source only tests most fields for truthiness, where the two behave alike. Where it interpolates a field into a template, they differ (see "Left out").
  - A missing list and an empty one are both `[]`.
  - The optional objects `professional_summary` and `additional_sections.technical_skills` are `Option`s.
- **Randomness.** `Math.random()` is a stream `rng: nat -> nat` of raw draws. `Math.floor(Math.random() * n)` on the k-th draw is `rng(k) % n`. Every operation that may draw takes the index of the next unread draw and returns the index after the draws it used. A bullet draws the impact phrase first and the verb second, and only when each is needed.
- **Case mapping and whitespace.** Case mapping is ASCII only. Whitespace is the set that `\s` and `trim` use in JavaScript.

The modules are:

- `Text`: character classes, `Lower`, `Trim`, maximal runs and whitespace-free segments, `Contains`, `Join`, decimal rendering.
- `Lists`: subsequences, `Distinct`, `Filter`, `Take`.
- `Profile`: the input record.
- `Pronouns`, `Phrase`, `Quantification`, `ActionVerbs`, `Bullet`: the bullet pipeline.
- `Validation`, `Summary`, `Keywords`, `Sections`, `Score`, `Engine`: the resume.
- `HtmlEscape` and `Tabs`: the front end.

Where the code and its description disagree, the model follows the code:

- **`convertToPhrase` on a trailing run such as `". ."`.** It removes only the final run of `.`, `!` and `?`, and it trims afterwards. So `"ok. ."` becomes `"Ok."`, which still ends in a period (`Phrase.PunctuationBeforeSpaceSurvives`). The promise "no trailing sentence punctuation" therefore holds only when the stripped text does not end in whitespace (`Phrase.PhraseEndsCleanly`).
- **The magnitude pattern inside a bullet.** The result is checked for quantification after phrase conversion, which lowercases every character but the first. `/\d+[KMB]/` is case-sensitive, so it never matches a processed result (`Bullet.MagnitudeNeverMatchesPhrase`): "grew revenue to 10M" is matched as "grew revenue to 10m" and gets an impact phrase. The model keeps this behaviour.
- **`switchTab` with a name that is not a tab.** The code looks up the panel before it assigns the index, so the lookup throws and the index is never set to -1. The model leaves the index unchanged.

## Model

Helper functions and predicates without a row of their own are covered by the rows of the members whose contracts use them. Examples are `Bullet.MapDrawing`, `Summary.Summarises` and `Engine.Assemble`.

| member | source | states |
|---|---|---|
| ActionVerbs.VerbsArePooled | xyz-resume-engine.js:176-177 | every verb of every category is in the pooled vocabulary that the strong-verb check searches |
| ActionVerbs.VerbsHaveNoSpace | xyz-resume-engine.js:8-14 | every vocabulary verb is a single word, so a prepended verb is the first word of the new action |
| Validation.Errors | xyz-resume-engine.js:33-42 | each of the five error messages is present exactly when its condition holds: missing name, email, candidate type or position, or a type other than experienced/fresher; the messages that are present keep the order of the checks, so none is repeated; there are no errors exactly when all four fields are present and the type is known |
| Validation.ErrorsDetermined | xyz-resume-engine.js:33-42 | any list in check order with the same messages is the error list: membership and order fix it, with no extra or repeated entry |
| Validation.Warnings | xyz-resume-engine.js:44-61 | the missing-experience warning appears exactly for an experienced candidate without experience, and the missing-education warning exactly when there is no education; when both appear, the experience warning comes first; after them come the per-achievement warnings |
| Validation.ValidateInputData | xyz-resume-engine.js:29-64 | the combined result: every error and warning condition as an if-and-only-if, the errors in check order, the two fixed warnings in check order, then the achievement warnings |
| Validation.IncompletePositionsSound | xyz-resume-engine.js:55-61 | every position reported as incomplete is a 1-based index of an achievement missing X, Y or Z |
| Validation.IncompletePositionsComplete | xyz-resume-engine.js:55-61 | every achievement missing X, Y or Z has its 1-based index reported |
| Validation.AchievementWarnings | xyz-resume-engine.js:55-61 | one "Achievement n missing XYZ components" message per incomplete position, in ascending index order |
| Validation.AchievementWarningFor | xyz-resume-engine.js:56-59 | the warning for achievement n is issued if and only if achievement n exists and misses X, Y or Z |
| Validation.AchievementWarningsDistinct | xyz-resume-engine.js:56-59 | each incomplete achievement is warned about exactly once: the warnings are pairwise different |
| Validation.AchievementWarningInjective | xyz-resume-engine.js:58 | two achievement warnings are equal exactly when they name the same index |
| Validation.WarningsDistinct | xyz-resume-engine.js:46-58 | an achievement warning never coincides with the experience or education warning |
| Validation.WarningsNeverBlock | xyz-resume-engine.js:44-61 | changing experience, education or the summary never changes the errors: warnings never block generation |
| Pronouns.RemovePersonalPronouns | xyz-resume-engine.js:108-113 | the result has no leading or trailing whitespace, no two adjacent whitespace characters and only plain spaces; its non-whitespace segments are those the pronoun deletion left, in order; its words are exactly the input's words minus I/me/my/we/our/us in any case |
| Pronouns.RemovePersonalPronounsDetermined | xyz-resume-engine.js:108-113 | a trimmed text with single plain spaces and the segments the pronoun deletion left is the result: the contract fixes it, so no space is lost or added between segments |
| Pronouns.CollapseSpaces | xyz-resume-engine.js:112 | no two adjacent whitespace characters and only plain spaces are left; emptiness, the first character's class and a leading non-whitespace character are kept, and so is every non-whitespace character, in order |
| Pronouns.CollapseKeepsSegments | xyz-resume-engine.js:112 | the non-whitespace segments of the collapsed text are those of the input, in order: no segment is split or joined |
| Pronouns.CollapseKeepsEnds | xyz-resume-engine.js:112 | the collapsed text ends in whitespace exactly when the input does |
| Pronouns.SpacingDetermined | xyz-resume-engine.js:112 | a text with single plain spaces is fixed by its segments and by whether it starts and ends with whitespace |
| Pronouns.CollapseSpacesDetermined | xyz-resume-engine.js:112 | the collapsed text is the only text with single plain spaces, the input's segments and whitespace at the input's ends: each whitespace run, and nothing else, becomes one space |
| Pronouns.TokensConcat | xyz-resume-engine.js:111 | the maximal word runs and the single other characters concatenate back to the text |
| Pronouns.TokensMaximal | xyz-resume-engine.js:111 | every token is a run of word characters or one other character, and no two word tokens are adjacent, so each word token is a maximal run between `\b` boundaries |
| Pronouns.DropPronounsDeletesPronounTokens | xyz-resume-engine.js:111 | the case-insensitive whole-word deletion of I, me, my, we, our and us removes exactly the word tokens that spell a pronoun and keeps every other token, in order |
| Pronouns.RemovedWords | xyz-resume-engine.js:111-112 | deleting whole-word pronouns, collapsing and trimming leaves the input's non-pronoun words in order, with no pronoun left |
| Pronouns.WordsDropPronouns | xyz-resume-engine.js:111 | the word-boundary deletion removes exactly the pronoun words |
| Pronouns.WordsCollapse | xyz-resume-engine.js:112 | collapsing whitespace keeps the sequence of words |
| Pronouns.WordsTrim | xyz-resume-engine.js:112 | trimming keeps the sequence of words |
| Phrase.StripSentenceEnd | xyz-resume-engine.js:122 | the result is the longest prefix whose last character is not `.`, `!` or `?`; everything removed is sentence punctuation |
| Phrase.ConvertToPhrase | xyz-resume-engine.js:118-131 | empty stays empty; the first character is not lower-case, no later character is upper-case, the ends are not whitespace, and in lower case the result is the stripped and trimmed input |
| Phrase.PhraseEndsCleanly | xyz-resume-engine.js:121-122 | the phrase does not end in `.`, `!` or `?`, when the stripped text does not end in whitespace |
| Phrase.PunctuationBeforeSpaceSurvives | xyz-resume-engine.js:122-125 | `"ok. ."` becomes `"Ok."`: punctuation before trailing whitespace survives |
| Phrase.PhraseIdempotent | xyz-resume-engine.js:118-131 | converting a phrase again changes nothing, when the phrase does not end in sentence punctuation |
| Phrase.ShippedExample | xyz-resume-engine.js:118-131 | `"Shipped it."` becomes `"Shipped it"` |
| Quantification.HasQuantification | xyz-resume-engine.js:136-149 | true exactly when one of the six patterns matches somewhere, against a declarative reading of each regular expression |
| Quantification.UnitAfterSpaces | xyz-resume-engine.js:144-145 | the scan finds a unit word after the optional whitespace exactly when some unit follows the digit after whitespace only |
| Quantification.UnitStartsAfterSpaces | xyz-resume-engine.js:144-145 | a unit that follows a digit starts right after the maximal whitespace run, so the greedy `\s*` decides nothing |
| Quantification.NoDigitNoQuantification | xyz-resume-engine.js:139-148 | text without a digit is never quantified |
| Quantification.MarkedNumberIsQuantified | xyz-resume-engine.js:140-143 | a digit followed by `%`, `+`, `K`, `M` or `B`, or preceded by `$`, makes the text quantified |
| Quantification.SuggestQuantification | xyz-resume-engine.js:154-164 | the result is the input, then ", ", then one of the five canned phrases |
| ActionVerbs.StartsWithStrongVerb | xyz-resume-engine.js:173-177 | true exactly when the lower-cased first space-separated word is the lower-cased form of a vocabulary verb |
| ActionVerbs.FirstWord | xyz-resume-engine.js:173 | the first word is the prefix before the first space, and it contains no space |
| ActionVerbs.EnsureStrongActionVerb | xyz-resume-engine.js:169-185 | an empty action, or one that already opens with a vocabulary verb, is returned unchanged; otherwise a verb of the requested category (creation when the category is unknown) and a space are prepended; a non-empty result always opens with a strong verb |
| ActionVerbs.PrependedVerbLeads | xyz-resume-engine.js:179-181 | prepending any vocabulary verb yields an action that passes the strong-verb check |
| ActionVerbs.EnsureStrongActionVerbIdempotent | xyz-resume-engine.js:169-185 | a second application, with any category and draw, leaves the action unchanged |
| ActionVerbs.BuiltIsKept | xyz-resume-engine.js:173-184 | "built a dashboard" is kept as it is, whatever the draw |
| Bullet.ResultClause | xyz-resume-engine.js:89-92 | a processed result without quantification gets one canned phrase and consumes one draw; otherwise it is kept and no draw is used |
| Bullet.ActionClause | xyz-resume-engine.js:94-95 | the action is kept without drawing when empty or already strong; otherwise a drawn verb is prepended; a non-empty result opens with a strong verb |
| Bullet.GenerateXYZBullet | xyz-resume-engine.js:69-103 | `formatted` is `Y + " " + Z`; `X` is the situation as a phrase; `Z` is the processed result, plus ", " and one of the five phrases when suggestion is on and it lacks quantification; `Y` is the processed action, or a category verb followed by it; at most two draws |
| Bullet.MapDrawingElements | xyz-resume-engine.js:347-349 | mapping over a list gives each element the result of the step at the draw where the previous element stopped |
| Bullet.FormatAchievements | xyz-resume-engine.js:347-349 | one bullet per achievement, bullet i being `generateXYZBullet` of achievement i's X, Y and Z with the default options at some draw, the first at the starting draw |
| Bullet.FormatAchievementsBullets | xyz-resume-engine.js:347-349 | each formatted achievement has its situation as a phrase, reads "Y Z", and is `generateXYZBullet` of that achievement's own X, Y and Z |
| Bullet.MagnitudeNeverMatchesPhrase | xyz-resume-engine.js:86-90 | the case-sensitive `\d+[KMB]` pattern never matches a converted phrase, because every letter after the first is lowercased |
| Summary.FresherSummary | xyz-resume-engine.js:200-217 | starts with the fresher introduction; with competencies, "Proficient in " and the first three joined by ", " and ". " follow it directly; with a key achievement, the text ends in "Demonstrated ability to " and the first achievement's Y and Z, lowercased, and a period; its length is exactly that of the introduction and the sentences present, so nothing else is in it; with neither sentence it is the bare introduction |
| Summary.ExperiencedSummary | xyz-resume-engine.js:219-236 | the same exact layout with the experienced introduction, "Core competencies include " and the first four competencies, and "Proven track record of "; the industry appears in the text |
| Summary.SummarisesDetermined | xyz-resume-engine.js:200-236 | the template layout fixes the text: two texts laid out for the same profile, introduction, leads and limit are equal |
| Summary.FresherSummaryReadsLeadersOnly | xyz-resume-engine.js:200-217 | two summaries agreeing on years, the first three competencies and the first achievement give the same fresher text |
| Summary.ExperiencedSummaryReadsLeadersOnly | xyz-resume-engine.js:219-236 | two summaries agreeing on years, the first four competencies and the first achievement give the same experienced text |
| Summary.FresherYearsReadBack | xyz-resume-engine.js:201-205 | the years figure in the fresher introduction is all digits and parses back to the years given |
| Summary.IndustryInIntro | xyz-resume-engine.js:224 | the industry occurs in the experienced introduction just before its closing ". " |
| Summary.GenerateProfessionalSummary | xyz-resume-engine.js:190-198 | a "fresher" gets the fresher template's exact layout, and any other type the experienced template's |
| Keywords.ExtractKeywords | xyz-resume-engine.js:266-278 | empty input gives nothing; a vocabulary keyword is returned exactly when it occurs in the lower-cased description; the result is in vocabulary order |
| Keywords.TechKeywordsDistinct | xyz-resume-engine.js:269-274 | the keyword vocabulary has no repeats |
| Keywords.ExtractKeywordsDetermined | xyz-resume-engine.js:266-278 | any vocabulary-ordered list with the same members is the extracted list: the contract determines the result |
| Keywords.Covers | xyz-resume-engine.js:250-252 | a keyword is covered exactly when some skill contains it, both lower-cased |
| Keywords.OptimizeForATS | xyz-resume-engine.js:241-261 | with no description or no skills the content is unchanged; otherwise the old skills are a prefix, followed by the first missing keywords in keyword order, as many as are missing up to three |
| Keywords.OptimizeAddsMissingKeywords | xyz-resume-engine.js:245-257 | the added skills are extracted keywords that no existing skill covered, they open the list of missing keywords, and there are as many as are missing, up to three |
| Keywords.NothingMissingAfterAdding | xyz-resume-engine.js:249-256 | once every missing keyword is appended, none is missing any more |
| Keywords.OptimizeSaturates | xyz-resume-engine.js:241-261 | when at most three keywords are missing, optimising twice is optimising once |
| Sections.TechnicalSkillsSection | xyz-resume-engine.js:326-340 | a section exactly when technical skills are given, carrying them |
| Sections.ExperienceSectionOf | xyz-resume-engine.js:342-356 | a section exactly when there is experience; entry i is experience i with its achievements formatted; no draw when absent |
| Sections.ProjectsSectionOf | xyz-resume-engine.js:358-372 | a section exactly when there are projects; entry i is project i with its achievements formatted; no draw when absent |
| Sections.FormatExperience | xyz-resume-engine.js:345-350 | the entry is kept, and bullet i is `generateXYZBullet` of achievement i, the first at the starting draw |
| Sections.FormatProject | xyz-resume-engine.js:361-366 | the project is kept, and bullet i is `generateXYZBullet` of achievement i, the first at the starting draw |
| Sections.EducationSectionOf | xyz-resume-engine.js:374-381 | a section exactly when there is education, carrying it |
| Sections.CertificationsSectionOf | xyz-resume-engine.js:383-390 | a section exactly when there are certifications, carrying them |
| Sections.Present | xyz-resume-engine.js:323 | the non-null filter keeps exactly the sections that were built |
| Sections.Candidates | xyz-resume-engine.js:306-321 | one slot per title of the candidate type's order, holding that title's section when it has data |
| Sections.GenerateSections | xyz-resume-engine.js:303-324 | the section titles appear in the fixed order for the candidate type, and every section carries the profile's own data: the skills object, the education or certifications list, or every experience entry or project in order with its achievements formatted |
| Sections.CandidatesBuiltFrom | xyz-resume-engine.js:306-321 | every filled slot holds a section built from the profile's data |
| Sections.SectionsPresent | xyz-resume-engine.js:303-324 | a title appears exactly when it belongs to the candidate type's order and the profile has data for it |
| Sections.CertificationsListed | xyz-resume-engine.js:311-319 | the certifications section appears exactly when there are certifications |
| Sections.FresherHasNoExperienceSection | xyz-resume-engine.js:306-312 | a fresher's resume never has an experience section, whatever experience is given |
| Score.CalculateATSScore | xyz-resume-engine.js:395-431 | the score is at most 100 and a multiple of five |
| Score.FullScoreIffPopulated | xyz-resume-engine.js:395-431 | the score is 100 exactly when every scored part is filled in |
| Score.ScoreMonotone | xyz-resume-engine.js:395-431 | filling in more of the profile never lowers the score |
| Score.CertificationsWorthTen | xyz-resume-engine.js:427-428 | removing the certifications costs exactly ten points |
| Score.BodyOfWorkFollowsType | xyz-resume-engine.js:410-416 | projects do not count for an experienced candidate, nor experience for a fresher |
| Engine.GenerateResume | xyz-resume-engine.js:283-298 | generation fails exactly when validation reports an error, with a message starting "Validation errors: "; a resume carries the validation warnings, the profile's personal details, the profile's score, the summary laid out exactly by its candidate type's template, and sections in the type's order, each built from the profile |
| Engine.BuiltSummaryIsGenerated | xyz-resume-engine.js:291 | a resume built from the profile has `generateProfessionalSummary(data)` as its summary |
| Engine.FailureNamesEveryError | xyz-resume-engine.js:285-287 | the failure message contains every validation error |
| Engine.MissingEmailRejected | xyz-resume-engine.js:283-287 | a profile without an email is always rejected, and the message says why |
| Engine.AcceptedResumeShape | xyz-resume-engine.js:283-298 | a valid profile yields a resume whose summary opens with its candidate type's first words, whose sections are exactly those with data, and whose section titles follow the type's order |
| HtmlEscape.EscapeHtml | main.js:1003-1010 | the output has no `<` or `>`; its length is the input length plus 4 per `&` and 3 per `<` or `>`; empty input gives "" |
| HtmlEscape.EscapeEach | main.js:1005-1009 | the one-pass reference escaper produces no `<` or `>` |
| HtmlEscape.EscapeHtmlIsOnePass | main.js:1005-1009 | the three passes, `&` first, equal escaping every character once: no entity is escaped twice |
| HtmlEscape.PassesAreOnePass | main.js:1007-1009 | the chained replacements equal the per-character escape on every input |
| HtmlEscape.ReplaceAllAppend | main.js:1007-1009 | a global replacement distributes over concatenation |
| HtmlEscape.EscapeHtmlKeepsPlainText | main.js:1005-1009 | a string without `&`, `<` or `>` is returned unchanged |
| HtmlEscape.UnescapeEscape | main.js:1003-1010 | decoding the three entities recovers the original text, so escaping loses nothing |
| Tabs.IndexOf | main.js:69 | `indexOf` returns -1 exactly for an absent name, and otherwise the first position holding it |
| Tabs.IndexOfDistinct | main.js:69 | in a list without repeats, looking up the entry at i finds i |
| Tabs.SwitchTab | main.js:51-71 | a known tab name makes the index that tab's position; an unknown one leaves the index as it was |
| Tabs.PreviousTab | main.js:73-77 | for distinct tab names, the index drops by exactly one when it is positive, and stays put at 0 |
| Tabs.NextTab | main.js:79-83 | for distinct tab names, the index rises by exactly one below the last tab, and stays put at the last tab |
| Tabs.TabIndexStaysValid | main.js:51-83 | the index starts valid, and every transition keeps it within the tab list |
| Tabs.NextTabBounded | main.js:79-83 | from a valid index, Next never passes the last tab, and reaches it exactly from the last two positions |
| Tabs.PreviousUndoesNext | main.js:73-83 | away from the ends, Previous undoes Next and Next undoes Previous |
| Tabs.ButtonsShowWhenTheyMove | main.js:85-91 | a navigation button is displayed exactly when pressing it would move the index |
| Tabs.PressNextReaches | main.js:79-83 | pressing Next k times from the first tab reaches tab k, stopping at the last |
| Tabs.ApplicationTabs | main.js:5-6 | with the application's seven tabs, six presses of Next from the first reach "job", a seventh stays there, and on "job" only the Previous button shows |

## Left out

- Browser I/O is not modelled: the DOM, event wiring, form collection, resume HTML rendering, PDF export, the Markdown and clipboard download, and `htmlToMarkdown` in `main.js`. The tab model keeps the index only; it does not show or hide panels.
- Network and server code is not modelled: the HTTP handlers under `api/`, their prompt templates and the external language-model calls, and `server.js` routing.
- `demo.js` (console output) and the browser test under `tests/` are not modelled.
- `Math.random()` is a stream of draws passed in as a parameter, not a random source.
- `Math.round(score / maxScore * 100)` is the integer sum itself, because `maxScore` is the constant 100.
- Case mapping is ASCII only; Unicode case mapping is not modelled.
- A missing text field and an empty string are the same here, and so are a missing list and an empty one. The source treats each pair alike wherever it only tests or iterates the value. It does not where it interpolates one: a `target_role` without `industry` gives "… years of expertise in undefined. " in the experienced summary, and a `generateProfessionalSummary` call without `position` prints "undefined" in either template. The model prints nothing there. Validation rejects a missing position before `generateResume` builds a summary; the missing industry reaches the resume.
- The source throws in these cases, and the model has no error path for them:
  - a summary built without a `target_role`;
  - a key achievement without `Y` or `Z` (a `toLowerCase` on `undefined`).
  The model treats those fields as strings that are always present.
- A category name such as "constructor", inherited by the verb table from `Object.prototype`, is not modelled. Every unknown category falls back to creation.
- `escapeHtml` is modelled on strings only. The `toString()` conversion of numbers and other values is not modelled.
- `optimizeForATS` is modelled on the `skills` list of its content argument only. Any other fields pass through unchanged in the source and are not represented.
- `years_experience` is a natural number. A fractional or negative value, printed through the template literal, is not modelled.
- Phrase.PhraseEndsCleanly: requires that the stripped text does not end in whitespace. This is weaker than "no trailing `.`, `!` or `?` whenever the input ended in one", which is false for inputs such as `"ok. ."` (see Phrase.PunctuationBeforeSpaceSurvives).
- Phrase.PhraseIdempotent: requires that the phrase does not end in sentence punctuation, for the same reason.
- Bullet.FormatAchievementsBullets: ties each bullet to its achievement at some draw index, but does not say which index after the first. Bullet.MapDrawingElements states that in general.
- Sections.GenerateSections: ties each bullet of an experience or project section to its achievement at some draw index, not a named one, for the same reason.
