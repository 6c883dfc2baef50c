/** The report `analyzeGaps` answers with: the scorer's results, the
    readiness label and the recommendations, or the error for a user with
    no target job, or the server error of a title that names an inherited
    object member. */
module GapReport {
  import opened Text
  import opened UserModel
  import opened JobCatalog
  import opened GapScoring

  datatype ReadinessLevel = Ready | AlmostReady | GettingThere | NeedsWork | Beginner

  /** Bands with inclusive lower bounds 80, 60, 40 and 20. */
  function ReadinessLevelOf(p: int): (l: ReadinessLevel)
    ensures l == Ready <==> 80 <= p
    ensures l == AlmostReady <==> 60 <= p < 80
    ensures l == GettingThere <==> 40 <= p < 60
    ensures l == NeedsWork <==> 20 <= p < 40
    ensures l == Beginner <==> p < 20
  {
    if p >= 80 then Ready
    else if p >= 60 then AlmostReady
    else if p >= 40 then GettingThere
    else if p >= 20 then NeedsWork
    else Beginner
  }

  /** The text `getReadinessLevel` returns for a readiness level. */
  function Label(l: ReadinessLevel): string
  {
    match l
    case Ready => "Ready"
    case AlmostReady => "Almost Ready"
    case GettingThere => "Getting There"
    case NeedsWork => "Needs Work"
    case Beginner => "Beginner"
  }

  /** The recommendation strings, by kind: the two counts are the numbers
      interpolated into "Focus on n high-priority skills first." and
      "Work on n medium-priority skills."; `Courses`, `Projects` and
      `Interviews` are the three readiness-banded suggestions; `AllSkills`
      and `AddAdvanced` the two messages for a report without gaps. */
  datatype Recommendation =
    | HighCount(n: nat)
    | MediumCount(n: nat)
    | Courses
    | Projects
    | Interviews
    | AllSkills
    | AddAdvanced

  /** The readiness-banded suggestion: below 50, below 75, otherwise. */
  function BandAdvice(p: int): (r: Recommendation)
    ensures r == Courses <==> p < 50
    ensures r == Projects <==> 50 <= p < 75
    ensures r == Interviews <==> 75 <= p
  {
    if p < 50 then Courses else if p < 75 then Projects else Interviews
  }

  function Recommendations(gaps: seq<GapEntry>, readiness: int): (r: seq<Recommendation>)
    ensures gaps == [] ==> r == [AllSkills, AddAdvanced]
    ensures gaps != [] ==>
              var h, m := CountPriority(gaps, High), CountPriority(gaps, Medium);
              && |r| == 1 + (if h > 0 then 1 else 0) + (if m > 0 then 1 else 0)
              && r[|r| - 1] == BandAdvice(readiness)
              && (r[0] == HighCount(h) <==> h > 0)
              && (m > 0 ==> r[|r| - 2] == MediumCount(m))
              && (forall i :: 0 <= i < |r| - 1 ==> r[i] in {HighCount(h), MediumCount(m)})
  {
    if gaps == [] then [AllSkills, AddAdvanced]
    else
      var h, m := CountPriority(gaps, High), CountPriority(gaps, Medium);
      (if h > 0 then [HighCount(h)] else [])
      + (if m > 0 then [MediumCount(m)] else [])
      + [BandAdvice(readiness)]
  }

  datatype Report = Report(
    jobTitle: string,
    totalSkillsRequired: nat,
    skillsWithGaps: nat,
    criticalGaps: nat,
    totalGapScore: nat,
    readinessPercentage: int,
    readinessLevel: string,
    gaps: seq<GapEntry>,
    recommendations: seq<Recommendation>)

  /** `ServerError` is the 500 answer of the handler's `catch`. */
  datatype Analysis = NoTargetJob | ServerError | Analysed(report: Report)

  /** The report for a title whose requirements are a profile. */
  function ReportFor(skills: seq<SkillRecord>, title: string): (r: Report)
    ensures r.jobTitle == title
    ensures r.skillsWithGaps == |r.gaps| <= r.totalSkillsRequired == |RequirementsFor(title)|
    ensures 0 <= r.readinessPercentage <= 100
  {
    var reqs := RequirementsFor(title);
    var levels := SkillLevels(skills);
    var gaps := Gaps(reqs, levels);
    CatalogTotals(title);
    UserPointsBounds(reqs, levels);
    ReadinessBounds(UserPoints(reqs, levels), RequiredPoints(reqs));
    var readiness := RoundedPercent(UserPoints(reqs, levels), RequiredPoints(reqs));
    Report(title, |reqs|, |gaps|, CriticalGaps(reqs, levels), TotalGapScore(reqs, levels),
           readiness, Label(ReadinessLevelOf(readiness)), gaps, Recommendations(gaps, readiness))
  }

  /** What `analyzeGaps` answers for a user's skills and target job, as
      written: a title naming an inherited member makes `requirements` a
      value without `requiredSkills`, the first use of it throws, and the
      handler answers with a server error. */
  function Analyze(skills: seq<SkillRecord>, target: TargetJob): (a: Analysis)
    ensures a == NoTargetJob <==> target.title == ""
    ensures a == ServerError <==> target.title != "" && Lower(target.title) in InheritedKeys
  {
    if target.title == "" then NoTargetJob
    else if ProfileLookup(target.title).Inherited? then ServerError
    else Analysed(ReportFor(skills, target.title))
  }

  /** The answer the handler evidently intends: every set title gets a
      report, with the full stack profile for every title not in the
      table. */
  function AnalyzeIntended(skills: seq<SkillRecord>, target: TargetJob): (a: Analysis)
    ensures a == NoTargetJob <==> target.title == ""
    ensures a != ServerError
  {
    if target.title == "" then NoTargetJob else Analysed(ReportFor(skills, target.title))
  }

  /** The handler's `forEach` that fills `userSkillsMap`. */
  method BuildSkillLevels(skills: seq<SkillRecord>) returns (levels: map<string, Level>)
    ensures levels == SkillLevels(skills)
  {
    levels := map[];
    var i := 0;
    while i < |skills|
      invariant 0 <= i <= |skills|
      invariant levels == SkillLevels(skills[..i])
    {
      assert skills[..i + 1][..i] == skills[..i];
      levels := levels[Lower(skills[i].name) := skills[i].level];
      i := i + 1;
    }
    assert skills[..|skills|] == skills;
  }

  /** One more requirement extends the entries and both counters by its own gap. */
  lemma ScoreStep(reqs: seq<Requirement>, k: nat, levels: map<string, Level>,
                  gaps: seq<GapEntry>, total: nat, critical: nat, gap: int, entry: GapEntry)
    requires k < |reqs|
    requires gaps == Gaps(reqs[..k], levels)
    requires total == TotalGapScore(reqs[..k], levels)
    requires critical == CriticalGaps(reqs[..k], levels)
    requires gap == GapFor(reqs[k], levels) && (gap > 0 ==> entry == EntryFor(reqs[k], levels))
    ensures (if gap > 0 then gaps + [entry] else gaps) == Gaps(reqs[..k + 1], levels)
    ensures (if gap > 0 then total + gap else total) == TotalGapScore(reqs[..k + 1], levels)
    ensures (if gap >= 2 then critical + 1 else critical) == CriticalGaps(reqs[..k + 1], levels)
  {
    assert reqs[..k + 1][..k] == reqs[..k];
  }

  /** The body of the handler's pass, for one requirement: the user's
      level, the gap, and the entry the handler pushes when it is positive. */
  method ScoreRequirement(req: Requirement, levels: map<string, Level>) returns (gap: int, entry: GapEntry)
    ensures gap == GapFor(req, levels)
    ensures gap > 0 ==> entry == EntryFor(req, levels)
  {
    var userLevel := if Lower(req.name) in levels then levels[Lower(req.name)] else 0;
    gap := Max(0, req.level - userLevel);
    var priority := if gap >= 2 then High else if gap == 1 then Medium else Low;
    entry := GapEntry(req.name, userLevel, req.level, gap, priority, LearningResources(req.name));
  }

  /** The handler's pass over the requirements: pushes an entry for every
      positive gap and accumulates `totalGapScore` and `criticalGaps`. */
  method ScoreRequirements(reqs: seq<Requirement>, levels: map<string, Level>)
    returns (gaps: seq<GapEntry>, totalGapScore: nat, criticalGaps: nat)
    ensures gaps == Gaps(reqs, levels)
    ensures totalGapScore == TotalGapScore(reqs, levels)
    ensures criticalGaps == CriticalGaps(reqs, levels)
  {
    gaps, totalGapScore, criticalGaps := [], 0, 0;
    var k := 0;
    while k < |reqs|
      invariant 0 <= k <= |reqs|
      invariant gaps == Gaps(reqs[..k], levels)
      invariant totalGapScore == TotalGapScore(reqs[..k], levels)
      invariant criticalGaps == CriticalGaps(reqs[..k], levels)
    {
      var gap, entry := ScoreRequirement(reqs[k], levels);
      ScoreStep(reqs, k, levels, gaps, totalGapScore, criticalGaps, gap, entry);
      if gap > 0 {
        if gap >= 2 {
          criticalGaps := criticalGaps + 1;
        }
        gaps := gaps + [entry];
        totalGapScore := totalGapScore + gap;
      }
      k := k + 1;
    }
    assert reqs[..|reqs|] == reqs;
  }

  /** `analyzeGaps` without its database and HTTP parts: the error for an
      unset target title, otherwise the report built from the skill map,
      the scored requirements and the readiness sums. */
  method AnalyzeGaps(skills: seq<SkillRecord>, target: TargetJob) returns (a: Analysis)
    ensures a == Analyze(skills, target)
  {
    if target.title == "" {
      return NoTargetJob;
    }
    var profile := ProfileLookup(target.title);
    if profile.Inherited? {
      // `requirements.requiredSkills` is undefined: the loop throws.
      return ServerError;
    }
    var reqs := profile.reqs;
    var levels := BuildSkillLevels(skills);
    var gaps, totalGapScore, criticalGaps := ScoreRequirements(reqs, levels);
    CatalogTotals(target.title);
    var readiness := RoundedPercent(UserPoints(reqs, levels), RequiredPoints(reqs));
    a := Analysed(Report(target.title, |reqs|, |gaps|, criticalGaps, totalGapScore, readiness,
                         Label(ReadinessLevelOf(readiness)), gaps, Recommendations(gaps, readiness)));
  }

  // ---------------------------------------------------------------------
  // Properties of the report

  /** Entries that are all high or medium split exactly into the two counts. */
  lemma {:induction false} HighPlusMedium(gs: seq<GapEntry>)
    requires forall e :: e in gs ==> e.priority != Low
    ensures CountPriority(gs, High) + CountPriority(gs, Medium) == |gs|
  {
    if gs != [] {
      var init := gs[..|gs| - 1];
      assert forall e :: e in init ==> e in gs;
      HighPlusMedium(init);
    }
  }

  /** The counters and entries of a report: every entry is well formed and
      never `Low`, `totalGapScore` is the sum of the entries' gaps,
      `criticalGaps` counts the high ones, at most one entry per required
      skill, and a report with gaps carries two or three recommendations. */
  lemma ReportCounters(skills: seq<SkillRecord>, target: TargetJob)
    requires target.title != "" && Lower(target.title) !in InheritedKeys
    ensures var r := Analyze(skills, target).report;
            && r.jobTitle == target.title
            && r.totalSkillsRequired == |RequirementsFor(target.title)|
            && r.skillsWithGaps == |r.gaps| <= r.totalSkillsRequired
            && r.totalGapScore == SumOfGaps(r.gaps)
            && r.criticalGaps == CountPriority(r.gaps, High)
            && (forall e :: e in r.gaps ==>
                  e.gap >= 1 && e.gap == e.requiredLevel - e.currentLevel && e.priority != Low &&
                  (e.priority == High <==> e.gap >= 2))
            && (r.gaps != [] ==> 2 <= |r.recommendations| <= 3)
  {
    var reqs, levels := RequirementsFor(target.title), SkillLevels(skills);
    GapEntriesWellFormed(reqs, levels);
    TotalGapScoreIsSum(reqs, levels);
    CriticalGapsIsHighCount(reqs, levels);
    HighPlusMedium(Gaps(reqs, levels));
  }

  /** Readiness of a report: within [0, 100], 100 exactly when there are no
      gaps, 0 exactly when the user has no record of any required skill,
      and labelled by its band. */
  lemma ReportReadiness(skills: seq<SkillRecord>, target: TargetJob)
    requires target.title != "" && Lower(target.title) !in InheritedKeys
    ensures var r := Analyze(skills, target).report;
            var reqs := RequirementsFor(target.title);
            && 0 <= r.readinessPercentage <= 100
            && (r.readinessPercentage == 100 <==> r.gaps == [])
            && (r.readinessPercentage == 0 <==>
                  forall i, j :: 0 <= i < |reqs| && 0 <= j < |skills| ==>
                    Lower(skills[j].name) != Lower(reqs[i].name))
            && r.readinessLevel == Label(ReadinessLevelOf(r.readinessPercentage))
  {
    var reqs, levels := RequirementsFor(target.title), SkillLevels(skills);
    CatalogTotals(target.title);
    UserPointsBounds(reqs, levels);
    UserPointsZeroIff(reqs, levels);
    ReadinessBounds(UserPoints(reqs, levels), RequiredPoints(reqs));
    forall i | 0 <= i < |reqs| {
      SkillLevelsLastWins(skills, Lower(reqs[i].name));
    }
  }

  /** Two titles that select the same requirements give the same report
      but for the title shown. */
  lemma SameRequirementsSameReport(skills: seq<SkillRecord>, t1: string, t2: string)
    requires RequirementsFor(t1) == RequirementsFor(t2)
    ensures ReportFor(skills, t1) == ReportFor(skills, t2).(jobTitle := t1)
  {
    var r1, r2 := ReportFor(skills, t1), ReportFor(skills, t2);
    assert r1.gaps == r2.gaps && r1.readinessPercentage == r2.readinessPercentage;
  }

  /** A title whose lower-case form is neither in the table nor an
      inherited member is scored as the full stack profile, while the
      report keeps the title as given. */
  lemma UnknownTitleFallsBack(skills: seq<SkillRecord>, target: TargetJob)
    requires target.title != "" && Lower(target.title) !in JobRequirements
    requires Lower(target.title) !in InheritedKeys
    ensures Analyze(skills, target) ==
              Analysed(Analyze(skills, TargetJob(DefaultTitle, "", [])).report.(jobTitle := target.title))
  {
    UnknownTitleResolves(target.title);
    SameRequirementsSameReport(skills, target.title, DefaultTitle);
  }

  /** As written, the titles "Constructor" and "__proto__" make the
      handler fail, although the evident intent gives them the full stack
      report. */
  lemma InheritedTitleCrashes()
    ensures Analyze([], TargetJob("Constructor", "", [])) == ServerError
    ensures Analyze([], TargetJob("__proto__", "", [])) == ServerError
    ensures AnalyzeIntended([], TargetJob("Constructor", "", [])).Analysed?
  {
    assert Lower("Constructor") == "constructor";
    assert Lower("__proto__") == "__proto__";
  }

  /** The intended analysis scores every title not in the table, with no
      exception, as the full stack profile. */
  lemma IntendedFallsBack(skills: seq<SkillRecord>, target: TargetJob)
    requires target.title != "" && Lower(target.title) !in JobRequirements
    ensures AnalyzeIntended(skills, target) ==
              Analysed(AnalyzeIntended(skills, TargetJob(DefaultTitle, "", [])).report.(jobTitle := target.title))
  {
    UnknownTitleResolves(target.title);
    SameRequirementsSameReport(skills, target.title, DefaultTitle);
  }

  /** The handler as written and as intended answer alike on every title
      that does not name an inherited member. */
  lemma AnalyzeAgrees(skills: seq<SkillRecord>, target: TargetJob)
    requires Lower(target.title) !in InheritedKeys
    ensures Analyze(skills, target) == AnalyzeIntended(skills, target)
  {
  }

  /** The lookup reads only the lower-case form of the title. */
  lemma LookupByLowerForm(t1: string, t2: string)
    requires Lower(t1) == Lower(t2)
    ensures ProfileLookup(t1) == ProfileLookup(t2) && RequirementsFor(t1) == RequirementsFor(t2)
  {
  }

  /** Titles are matched case-insensitively: two titles with the same
      lower-case form give the same answer, and the same report but for
      the title shown. */
  lemma TitleCaseInsensitive(skills: seq<SkillRecord>, t1: TargetJob, t2: TargetJob)
    requires t1.title != "" && Lower(t1.title) == Lower(t2.title)
    ensures Analyze(skills, t1).Analysed? <==> Analyze(skills, t2).Analysed?
    ensures Analyze(skills, t1).Analysed? ==>
              Analyze(skills, t1).report == Analyze(skills, t2).report.(jobTitle := t1.title)
  {
    assert t2.title != "" by {
      assert |t2.title| == |Lower(t2.title)| == |Lower(t1.title)| == |t1.title|;
    }
    LookupByLowerForm(t1.title, t2.title);
    SameRequirementsSameReport(skills, t1.title, t2.title);
  }

  /** The five labels are distinct, so the report's text names its band. */
  lemma LabelsDistinct(l1: ReadinessLevel, l2: ReadinessLevel)
    ensures Label(l1) == Label(l2) <==> l1 == l2
  {
  }

  /** Skill records are matched case-insensitively: respelling names while
      keeping their lower-case forms and levels changes no report. */
  lemma {:induction false} SkillNamesCaseInsensitive(s1: seq<SkillRecord>, s2: seq<SkillRecord>)
    requires |s1| == |s2|
    requires forall i :: 0 <= i < |s1| ==> Lower(s1[i].name) == Lower(s2[i].name) && s1[i].level == s2[i].level
    ensures SkillLevels(s1) == SkillLevels(s2)
    ensures forall target :: Analyze(s1, target) == Analyze(s2, target)
  {
    if s1 != [] {
      var n := |s1|;
      SkillNamesCaseInsensitive(s1[..n - 1], s2[..n - 1]);
    }
  }

  /** Each prefix of the frontend list extends the one before it. */
  lemma PrefixSteps(reqs: seq<Requirement>)
    requires |reqs| == 7
    ensures reqs[..1][..0] == [] && reqs[..2][..1] == reqs[..1] && reqs[..3][..2] == reqs[..2]
    ensures reqs[..4][..3] == reqs[..3] && reqs[..5][..4] == reqs[..4] && reqs[..6][..5] == reqs[..5]
    ensures reqs[..7][..6] == reqs[..6] && reqs[..7] == reqs
  {
  }

  /** The worked example's title selects the frontend profile. */
  lemma ExampleTitle()
    ensures RequirementsFor("frontend developer") == FrontendRequirements
    ensures ProfileLookup("frontend developer") == Listed(FrontendRequirements)
  {
    assert Lower("frontend developer") == "frontend developer";
  }

  /** The worked example's skill map. */
  lemma ExampleSkillMap()
    ensures SkillLevels([SkillRecord("javascript", 3, Technical), SkillRecord("react", 2, Technical)]) ==
              map["javascript" := 3, "react" := 2]
  {
    var skills := [SkillRecord("javascript", 3, Technical), SkillRecord("react", 2, Technical)];
    assert Lower("javascript") == "javascript" && Lower("react") == "react";
    assert skills[..1][..0] == [];
    assert SkillLevels(skills[..1]) == map["javascript" := 3];
    assert skills[..|skills| - 1] == skills[..1];
  }

  /** The frontend profile's required points, one prefix at a time. */
  lemma ExampleRequiredPoints()
    ensures RequiredPoints(FrontendRequirements) == 25
  {
    var reqs := FrontendRequirements;
    PrefixSteps(reqs);
    assert RequiredPoints(reqs[..1]) == 4;
    assert RequiredPoints(reqs[..2]) == 8;
    assert RequiredPoints(reqs[..3]) == 12;
    assert RequiredPoints(reqs[..4]) == 15;
    assert RequiredPoints(reqs[..5]) == 18;
    assert RequiredPoints(reqs[..6]) == 22;
  }

  /** The worked example's earned points: what the gap score leaves. */
  lemma ExamplePoints()
    ensures var reqs, levels := FrontendRequirements, map["javascript" := 3, "react" := 2];
            RequiredPoints(reqs) == 25 && UserPoints(reqs, levels) == 5
  {
    ExampleRequiredPoints();
    ExampleGapScore();
  }

  lemma ExampleGapScore()
    ensures var reqs, levels := FrontendRequirements, map["javascript" := 3, "react" := 2];
            TotalGapScore(reqs, levels) == 20
  {
    var reqs, levels := FrontendRequirements, map["javascript" := 3, "react" := 2];
    assert Lower("JavaScript") == "javascript" && Lower("React") == "react";
    PrefixSteps(reqs);
    assert TotalGapScore(reqs[..1], levels) == 4;
    assert TotalGapScore(reqs[..2], levels) == 8;
    assert TotalGapScore(reqs[..3], levels) == 9;
    assert TotalGapScore(reqs[..4], levels) == 10;
    assert TotalGapScore(reqs[..5], levels) == 13;
    assert TotalGapScore(reqs[..6], levels) == 17;
  }

  lemma ExampleCriticalGaps()
    ensures var reqs, levels := FrontendRequirements, map["javascript" := 3, "react" := 2];
            CriticalGaps(reqs, levels) == 5
  {
    var reqs, levels := FrontendRequirements, map["javascript" := 3, "react" := 2];
    assert Lower("JavaScript") == "javascript" && Lower("React") == "react";
    PrefixSteps(reqs);
    assert CriticalGaps(reqs[..1], levels) == 1;
    assert CriticalGaps(reqs[..2], levels) == 2;
    assert CriticalGaps(reqs[..3], levels) == 2;
    assert CriticalGaps(reqs[..4], levels) == 2;
    assert CriticalGaps(reqs[..5], levels) == 3;
    assert CriticalGaps(reqs[..6], levels) == 4;
  }

  lemma ExampleGapCount()
    ensures var reqs, levels := FrontendRequirements, map["javascript" := 3, "react" := 2];
            |Gaps(reqs, levels)| == 7
  {
    var reqs, levels := FrontendRequirements, map["javascript" := 3, "react" := 2];
    assert Lower("JavaScript") == "javascript" && Lower("React") == "react";
    assert forall i :: 0 <= i < |reqs| ==> CurrentLevel(levels, reqs[i].name) < reqs[i].level;
    AllUnmetAllListed(reqs, levels);
  }

  /** The worked example's counters. */
  lemma ExampleCounters()
    ensures var r := ReportFor([SkillRecord("javascript", 3, Technical), SkillRecord("react", 2, Technical)],
                               "frontend developer");
            r.skillsWithGaps == 7 && r.totalGapScore == 20 && r.criticalGaps == 5
  {
    var skills := [SkillRecord("javascript", 3, Technical), SkillRecord("react", 2, Technical)];
    ExampleTitle();
    ExampleSkillMap();
    ExampleGapScore();
    ExampleCriticalGaps();
    ExampleGapCount();
    var levels := SkillLevels(skills);
    var r := ReportFor(skills, "frontend developer");
    assert r.skillsWithGaps == |Gaps(FrontendRequirements, levels)|;
    assert r.totalGapScore == TotalGapScore(FrontendRequirements, levels);
    assert r.criticalGaps == CriticalGaps(FrontendRequirements, levels);
  }

  /** The worked example's readiness and its label. */
  lemma ExampleReadiness()
    ensures var r := ReportFor([SkillRecord("javascript", 3, Technical), SkillRecord("react", 2, Technical)],
                               "frontend developer");
            r.readinessPercentage == 20 && r.readinessLevel == "Needs Work"
  {
    var skills := [SkillRecord("javascript", 3, Technical), SkillRecord("react", 2, Technical)];
    ExampleTitle();
    ExampleSkillMap();
    ExamplePoints();
    var levels := SkillLevels(skills);
    assert RoundedPercent(5, 25) == 20;
    var r := ReportFor(skills, "frontend developer");
    assert r.readinessPercentage == RoundedPercent(UserPoints(FrontendRequirements, levels),
                                                   RequiredPoints(FrontendRequirements));
    assert r.readinessLevel == Label(NeedsWork);
  }

  /** The worked example: a user with javascript 3 and react 2 aiming at
      "frontend developer" has seven gaps totalling 20, five of them
      critical, and 20% readiness, labelled "Needs Work". */
  lemma FrontendExample()
    ensures var a := Analyze([SkillRecord("javascript", 3, Technical), SkillRecord("react", 2, Technical)],
                             TargetJob("frontend developer", "", []));
            && a.Analysed?
            && a.report.skillsWithGaps == 7
            && a.report.totalGapScore == 20
            && a.report.criticalGaps == 5
            && a.report.readinessPercentage == 20
            && a.report.readinessLevel == "Needs Work"
  {
    var skills := [SkillRecord("javascript", 3, Technical), SkillRecord("react", 2, Technical)];
    ExampleTitle();
    ExampleCounters();
    ExampleReadiness();
    assert Analyze(skills, TargetJob("frontend developer", "", [])) ==
             Analysed(ReportFor(skills, "frontend developer"));
  }
}
