# Skill gap analysis: a verified model

This project models the two pieces of backend logic of the skill gap web
application:

- **The gap scorer and its report** (`backend/controllers/gapController.js`).
  A user has a list of self-rated skills and a target job title. The title
  is looked up case-insensitively in a fixed table of required skills, and
  unknown titles fall back to the "full stack developer" profile. The two
  titles that name members every JavaScript object inherits make the
  handler fail instead (see "## Findings"). For each
  required skill, in table order, the scorer computes the gap between the
  required level and the user's level (0 when the user lacks the skill). A
  positive gap becomes a report entry with a priority (high for 2 or more,
  medium for exactly 1, low otherwise; with integer levels a positive gap
  is never low) and learning resources from a second fixed table. The
  handler adds up the gaps, counts the critical ones, computes a capped
  readiness percentage, labels it, and adds recommendations.
- **Skill-list maintenance** (`backend/controllers/skillController.js`).
  `addSkill` upserts a record into the user's skill list, keyed by the
  case-insensitive name. `removeSkill` filters out every matching record.
  `setTargetJob` stores a target job with defaults.

Layout, one module per file:

- `text.dfy` (`Text`): lower-casing, used for every name comparison.
- `user_model.dfy` (`UserModel`): the skill record and target job of the
  user schema. A level is 1 to 5. A category is one of technical, soft,
  tool or domain.
- `job_catalog.dfy` (`JobCatalog`): the job and resource tables and their
  lookups.
- `gap_scoring.dfy` (`GapScoring`): the scorer as functions of the skill
  records and a requirement list, and the lemmas about it.
- `gap_report.dfy` (`GapReport`): readiness labels, recommendations, the
  report, and the handler's computation as the method `AnalyzeGaps`. Its
  loops are `BuildSkillLevels` and `ScoreRequirements`, and the loop body
  for one requirement is `ScoreRequirement`. `AnalyzeGaps` is proved equal
  to the specification function `Analyze`, which follows the code as
  written. `AnalyzeIntended` is the same analysis without the failure on
  inherited-member titles.
- `skill_list.dfy` (`SkillList`): the specification functions `FirstMatch`,
  `Upsert` and `Without`, the lemmas about them, and the class
  `UserProfile`. The class holds the `skills` and `targetJob` fields. Its
  methods `AddSkill`, `RemoveSkill` and `SetTargetJob` update them in place.

Modelling choices:

- `toLowerCase` is ASCII lower-casing (`Text.Lower`).
- JavaScript falsy defaults are written out on explicit values. A supplied
  level of 0 means absent or falsy. A supplied category of `""` means
  absent. A supplied industry or required-skill list is an `Option`.
- `Math.round((u / t) * 100)` is the integer `(200u + t) / (2t)`, which is
  round-half-up of 100u/t. Every profile's total `t` is 25, 34 or 22, so
  100u/t is never exactly half-way, and floating point cannot change the
  rounded value.
- The report's recommendation strings are the datatype `Recommendation`.
  The two counted messages carry their count.
- `user.save()` runs the schema validator. A supplied level outside 1..5,
  or a category outside the enumeration, makes the save fail. The handler
  then answers with a server error and the stored list is unchanged.
  `AddSkill` models this as the outcome `ValidationFailed`.

Facts about the code that the model keeps:

- Names are lower-cased, not trimmed (gapController.js:65 and 70,
  skillController.js:40 and 87).
- The fallback resource URL interpolates the skill name without URL
  encoding (gapController.js:179).
- Readiness is 100 exactly when there are no gaps only because every
  profile's total is below 200. With a total of 400, 399 points would
  round to 100. `ReadinessBounds` states the condition and
  `CatalogTotals` discharges it for every title.
- The title lookup is a property read on a plain object. Besides the
  table's own four entries it also finds the members inherited from
  `Object.prototype`. `JobCatalog.ProfileLookup` models that read as
  written, and `JobCatalog.RequirementsFor` the own-entry lookup that is
  evidently intended.

## Model

| member | source | states |
|---|---|---|
| `Text.Lower` | backend/controllers/gapController.js:65 | lower-casing keeps the length and lower-cases each character; every name match goes through it |
| `UserModel.ParseCategory` | backend/models/User.js:35-38 | a category string is accepted exactly when it is one of the four schema names, and parses to the category of that name |
| `JobCatalog.RequirementsFor` | backend/controllers/gapController.js:65-66 | the intended lookup: the lower-cased title selects its own profile, and every other title, with no exception, gets the full stack profile; the list is never empty |
| `JobCatalog.ProfileLookup` | backend/controllers/gapController.js:65-66 | the lookup as written: a profile for every title except those whose lower-case form is an inherited member ("constructor", "__proto__"), which yield a value that is not a profile; where it yields a profile it is the intended one |
| `JobCatalog.CatalogNamesNotInherited` | backend/controllers/gapController.js:4-50 | no required skill name of any profile lower-cases to an inherited member, so the resource lookup at line 178 never meets one for a reported gap |
| `JobCatalog.CatalogTotals` | backend/controllers/gapController.js:4-50 | for every title, the total required points are positive (the division is defined) and below 200 |
| `JobCatalog.RequiredPoints` | backend/controllers/gapController.js:101 | the total required points lie between the number of skills and five times it |
| `JobCatalog.LearningResources` | backend/controllers/gapController.js:134-181 | a known lower-cased skill key gives its catalog list; an unknown one gives exactly one entry of type "search" titled `<name> Documentation` |
| `GapScoring.CurrentLevel` | backend/controllers/gapController.js:79 | the user's level is in 0..5 and is 0 exactly when no record has the skill's lower-cased name |
| `GapScoring.SkillLevels` | backend/controllers/gapController.js:68-71 | every record's lower-cased name is a key of the skill map |
| `GapScoring.PriorityOf` | backend/controllers/gapController.js:83 | high exactly for a gap of 2 or more; a gap of at least 1 is never low |
| `GapScoring.Gaps` | backend/controllers/gapController.js:78-98 | at most one entry per requirement |
| `GapScoring.TotalGapScore` | backend/controllers/gapController.js:75-96 | the accumulated gap score is at most five points per requirement |
| `GapScoring.CriticalGaps` | backend/controllers/gapController.js:76-85 | at most one critical gap per requirement |
| `GapScoring.UserPoints` | backend/controllers/gapController.js:101-104 | earned points plus the total gap score are exactly the required points, so readiness measures what is left after the gaps |
| `GapScoring.GapFor` | backend/controllers/gapController.js:80 | a gap is never negative, and is positive exactly when the user's level is below the required one |
| `GapScoring.SkillLevelsLastWins` | backend/controllers/gapController.js:68-71 | a lower-cased name is in the skill map exactly when some record has it; its level is that of the last such record |
| `GapScoring.GapEntriesWellFormed` | backend/controllers/gapController.js:80-94 | every entry has gap >= 1 equal to required minus current level; high exactly when gap >= 2, medium exactly when gap = 1, never low; it lists its skill's resources |
| `GapScoring.GapsAppend` | backend/controllers/gapController.js:78-98 | entries follow requirement order: the entries of a concatenation are those of each part, in order |
| `GapScoring.GapsOfOne` | backend/controllers/gapController.js:82-94 | one requirement yields one entry exactly when the user's level is below the required one |
| `GapScoring.NoGapsIff` | backend/controllers/gapController.js:78-98 | there are no entries exactly when every required level is met |
| `GapScoring.AllUnmetAllListed` | backend/controllers/gapController.js:78-98 | when no required level is met, every requirement has its entry |
| `GapScoring.TotalGapScoreIsSum` | backend/controllers/gapController.js:75-98 | the accumulated `totalGapScore` equals the sum of the entries' gaps |
| `GapScoring.CriticalGapsIsHighCount` | backend/controllers/gapController.js:76-98 | the accumulated `criticalGaps` equals the number of high-priority entries |
| `GapScoring.UserPointsBounds` | backend/controllers/gapController.js:101-104 | capped credit never exceeds the total, and equals it exactly when there are no gaps |
| `GapScoring.UserPointsZeroIff` | backend/controllers/gapController.js:102-104 | capped credit is 0 exactly when the skill map has none of the required skills |
| `GapScoring.RoundedPercent` | backend/controllers/gapController.js:106 | the result is 100u/t rounded half up: 2t·p <= 200u + t < 2t·(p+1) |
| `GapScoring.ReadinessBounds` | backend/controllers/gapController.js:101-106 | readiness is in [0, 100]; for totals below 200 it is 100 exactly when u = t and 0 exactly when u = 0 |
| `GapReport.ReadinessLevelOf` | backend/controllers/gapController.js:184-190 | each label holds exactly on its band: >= 80, [60, 80), [40, 60), [20, 40), < 20 |
| `GapReport.LabelsDistinct` | backend/controllers/gapController.js:184-190 | the five label texts are pairwise distinct, so the text names the band |
| `GapReport.BandAdvice` | backend/controllers/gapController.js:211-217 | courses exactly below 50, projects exactly in [50, 75), interviews exactly from 75 |
| `GapReport.Recommendations` | backend/controllers/gapController.js:193-221 | no gaps gives exactly the two fixed items; otherwise a high-count item first iff there is a high gap, a medium-count item iff there is a medium gap, and exactly one banded item last |
| `GapReport.HighPlusMedium` | backend/controllers/gapController.js:200-201 | when no entry is low, the high and medium counts add up to the number of entries |
| `GapReport.Analyze` | backend/controllers/gapController.js:54-131 | as written: "no target job" exactly when the title is unset; the server error exactly when the title is set and lower-cases to an inherited member |
| `GapReport.AnalyzeIntended` | backend/controllers/gapController.js:54-131 | as intended: "no target job" exactly when the title is unset, never a server error |
| `GapReport.ReportFor` | backend/controllers/gapController.js:108-121 | the report shows the title as given; it has one count per entry and no more entries than requirements; readiness is in [0, 100] |
| `GapReport.AnalyzeAgrees` | backend/controllers/gapController.js:65-66 | on every title that is not an inherited member, the handler as written and as intended give the same answer |
| `GapReport.InheritedTitleCrashes` | backend/controllers/gapController.js:66-78 | the titles "Constructor" and "__proto__" get the server error as written, and a report as intended |
| `GapReport.BuildSkillLevels` | backend/controllers/gapController.js:68-71 | the `forEach` loop builds exactly the lower-cased-name-to-level map |
| `GapReport.ScoreRequirement` | backend/controllers/gapController.js:79-94 | one requirement's step computes its gap, and when that is positive exactly the entry the scorer specifies |
| `GapReport.ScoreRequirements` | backend/controllers/gapController.js:73-98 | the requirement loop pushes exactly the entries of the positive gaps and accumulates both counters |
| `GapReport.AnalyzeGaps` | backend/controllers/gapController.js:54-131 | the handler's step-by-step computation, including its failure on inherited-member titles, yields exactly the specified analysis |
| `GapReport.ReportCounters` | backend/controllers/gapController.js:108-121 | for every analysed report: the given title; `skillsWithGaps` <= `totalSkillsRequired`; total and critical counts match the entries; entries are well formed; a report with gaps has 2 or 3 recommendations |
| `GapReport.ReportReadiness` | backend/controllers/gapController.js:101-117 | for every analysed report: readiness is in [0, 100]; it is 100 exactly when there are no gaps and 0 exactly when no record matches a required skill; the label is the text of its band |
| `GapReport.UnknownTitleFallsBack` | backend/controllers/gapController.js:65-66 | a title neither in the table nor an inherited member is scored exactly as "full stack developer", and the report keeps the title as given |
| `GapReport.IntendedFallsBack` | backend/controllers/gapController.js:65-66 | as intended, every title not in the table is scored exactly as "full stack developer" |
| `GapReport.TitleCaseInsensitive` | backend/controllers/gapController.js:65 | titles with the same lower-case form get the same kind of answer, and the same report except for the title shown |
| `GapReport.SkillNamesCaseInsensitive` | backend/controllers/gapController.js:69-71 | respelling skill names with the same lower-case forms changes neither the skill map nor any analysis |
| `GapReport.FrontendExample` | backend/controllers/gapController.js:5-14 | javascript 3 and react 2 against "frontend developer" give 7 gaps, total 20, 5 critical, readiness 20, labelled "Needs Work" |
| `SkillList.FirstMatch` | backend/controllers/skillController.js:39-41 | the index is the first record matching the name case-insensitively, or -1 exactly when none matches |
| `SkillList.FindIndex` | backend/controllers/skillController.js:39-41 | the search loop returns exactly the first matching index, or -1 |
| `SkillList.Upsert` | backend/controllers/skillController.js:43-57 | the list grows by at most one record, by one exactly when nothing matched, and every earlier record keeps its name up to case |
| `SkillList.Without` | backend/controllers/skillController.js:85-88 | the list does not grow and no remaining record matches the name |
| `SkillList.UpsertShape` | backend/controllers/skillController.js:43-57 | on a match, only the first matching index changes and the length is kept: new spelling, and old level and category where the supplied ones are falsy; otherwise one record is appended with level 1 and category technical by default, and earlier records are kept |
| `SkillList.UpsertKeepsNamesUnique` | backend/controllers/skillController.js:39-57 | after the upsert some record carries the name as given, and a list without case-insensitive duplicates stays without them |
| `SkillList.UpsertIdempotent` | backend/controllers/skillController.js:39-57 | adding the same (name, level, category) twice stores the same list as adding it once |
| `SkillList.UpsertSeenByScorer` | backend/controllers/skillController.js:43-57 | on a duplicate-free list, the gap scorer reads for the name exactly the level that the upsert stored |
| `SkillList.WithoutAppend` | backend/controllers/skillController.js:85-88 | the filter keeps the other records in their original order |
| `SkillList.WithoutMembers` | backend/controllers/skillController.js:85-88 | a record remains exactly when it was there and does not match, so no remaining record matches |
| `SkillList.WithoutKeepsLengthIff` | backend/controllers/skillController.js:90-95 | the length is unchanged exactly when no record matches, and then the list is unchanged |
| `SkillList.WithoutKeepsNamesUnique` | backend/controllers/skillController.js:85-88 | removing keeps a duplicate-free list duplicate-free |
| `SkillList.FilterOut` | backend/controllers/skillController.js:85-88 | the filter loop keeps exactly the non-matching records |
| `SkillList.UserProfile.constructor` | backend/models/User.js:27-44 | a new document has no skills and no target title, and satisfies the invariant |
| `SkillList.UserProfile.AddSkill` | backend/controllers/skillController.js:25-74 | an empty name is refused and a value the schema refuses is not stored, both leaving the list unchanged; otherwise the list becomes the upsert; "Skill updated" exactly when a match existed, else "Skill added"; the invariant is kept |
| `SkillList.UserProfile.RemoveSkill` | backend/controllers/skillController.js:78-112 | the list becomes the filtered list; "not found" exactly when no record matched, and then the list is unchanged; the invariant is kept |
| `SkillList.UserProfile.SetTargetJob` | backend/controllers/skillController.js:116-150 | a title is required; industry defaults to "" and required skills to []; the skills are untouched; the stored title gets a report as intended, and as written exactly when it is not an inherited member |

## Left out

- HTTP and Express plumbing: requests, status codes and JSON envelopes. These become the `Analysis`, `AddOutcome`, `RemoveOutcome` and `TargetOutcome` datatypes.
- `getGapHistory`: a placeholder that returns a fixed message.
- `getUserSkills` and `getTargetJob`: plain reads of one stored field.
- Persistence and authentication: `User.findById`, `user.save()`, the auth middleware, password hashing and comparison. These are calls into code outside the model. Of `save` only the schema validation result is kept (see `AddSkill`). A failed lookup or a database error, which end in the same 500 answer, is not modelled. The 500 answer for a title that names an inherited member is modelled as `ServerError`.
- Concurrency: two requests racing on the same user document.
- The resume upload controller: it stores a file and returns a constant list. There is no logic in it to verify.
- The frontend: DOM code, fetch calls, local storage and the form validators.
- Unicode case mapping: `toLowerCase` is modelled on ASCII letters only.
- Floating point: readiness is computed on exact integers, as explained above.
- The recommendation texts: the model keeps their kind and count, not the interpolated English sentences.
- `JobCatalog.LearningResources`: its contract fixes the fallback entry's type and title. The fallback URL is built by plain concatenation in the function body but is not constrained by the contract.
- `JobCatalog.LearningResources`: the resource table is a plain object too, so for a name that lower-cases to "constructor" or "__proto__" the code returns an inherited member, while the model returns the search entry. The handler never passes such a name: line 93 passes only required skill names, and `CatalogNamesNotInherited` proves that none of them is one.
- `GapScoring.GapEntriesWellFormed`: stored levels are integers 1 to 5. The schema types a level as a number with bounds 1 and 5, so a fractional level such as 3.5 would also be stored. With one, a gap can lie strictly between 0 and 1, or between 1 and 2, and then the code's priority is low. So "never low", and high plus medium equal to the number of entries (`GapReport.HighPlusMedium`, `GapReport.ReportCounters`), hold only for integer levels.
- `SkillList.UserProfile.AddSkill`: the supplied level is an integer, with 0 for an absent value. Fractional levels are excluded (see `GapScoring.GapEntriesWellFormed`). Mongoose casting of numeric strings and other JavaScript values (`null`, `NaN`, booleans) is not modelled. Category values are modelled as strings.
- `SkillList.UserProfile.AddSkill`: Mongoose's subdocument identifiers (`_id`) are not modelled.

## Findings

| source | as written | input that shows it | evidently intended | confidence | as-written member | corrected member |
|---|---|---|---|---|---|---|
| backend/controllers/gapController.js:65-78 | the title lookup reads a property of a plain object, so a lower-cased title naming an inherited member yields a truthy value without `requiredSkills`; the loop at line 78 then throws and the handler answers 500 | target title "Constructor" (or "__proto__"), which `setTargetJob` stores like any other | every title not in the table is scored as "full stack developer" | not executed | `GapReport.InheritedTitleCrashes` | `GapReport.IntendedFallsBack` |
