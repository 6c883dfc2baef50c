/** The skill controller's list logic: `addSkill` as a case-insensitive
    upsert, `removeSkill` as a case-insensitive filter, and `setTargetJob`,
    on a user document whose fields the handlers update in place. */
module SkillList {
  import opened Text
  import opened UserModel
  import JobCatalog
  import GapScoring
  import GapReport

  /** A record stands for `name` when the lower-case forms agree. */
  predicate Matches(r: SkillRecord, name: string) { Lower(r.name) == Lower(name) }

  /** No two records of the list share a lower-case name. */
  ghost predicate NoDuplicateNames(skills: seq<SkillRecord>)
  {
    forall i, j :: 0 <= i < j < |skills| ==> Lower(skills[i].name) != Lower(skills[j].name)
  }

  /** `findIndex`: the index of the first record matching `name`, or -1. */
  function FirstMatch(skills: seq<SkillRecord>, name: string): (k: int)
    ensures -1 <= k < |skills|
    ensures k >= 0 ==> Matches(skills[k], name) && forall j :: 0 <= j < k ==> !Matches(skills[j], name)
    ensures k == -1 <==> forall j :: 0 <= j < |skills| ==> !Matches(skills[j], name)
  {
    if skills == [] then -1
    else if Matches(skills[0], name) then 0
    else
      var k := FirstMatch(skills[1..], name);
      if k == -1 then -1 else k + 1
  }

  /** What the schema lets `user.save()` store: a supplied level (0 stands
      for an absent or falsy one) from 1 to 5, and a supplied category
      ("" stands for an absent one) from the enumeration. */
  predicate SchemaAccepts(level: int, category: string)
  {
    (level == 0 || 1 <= level <= 5) && (category == "" || ParseCategory(category).Some?)
  }

  /** The record that replaces a match: the new spelling, and the old level
      and category wherever the supplied ones are falsy. */
  function UpdatedRecord(previous: SkillRecord, name: string, level: int, category: string): SkillRecord
    requires SchemaAccepts(level, category)
  {
    SkillRecord(name,
                if level == 0 then previous.level else level,
                if category == "" then previous.category else ParseCategory(category).value)
  }

  /** The record appended when nothing matches: level 1 and category
      technical by default. */
  function NewRecord(name: string, level: int, category: string): SkillRecord
    requires SchemaAccepts(level, category)
  {
    SkillRecord(name,
                if level == 0 then 1 else level,
                if category == "" then Technical else ParseCategory(category).value)
  }

  /** The list a successful `addSkill` stores. */
  function Upsert(skills: seq<SkillRecord>, name: string, level: int, category: string): (r: seq<SkillRecord>)
    requires SchemaAccepts(level, category)
    ensures |skills| <= |r| <= |skills| + 1
    ensures forall i :: 0 <= i < |skills| ==> Matches(r[i], skills[i].name)
    ensures |r| == |skills| <==> FirstMatch(skills, name) >= 0
  {
    var k := FirstMatch(skills, name);
    if k >= 0 then skills[k := UpdatedRecord(skills[k], name, level, category)]
    else skills + [NewRecord(name, level, category)]
  }

  /** The list `removeSkill` computes: the records not matching `name`. */
  function Without(skills: seq<SkillRecord>, name: string): (r: seq<SkillRecord>)
    ensures |r| <= |skills|
    ensures forall x :: x in r ==> !Matches(x, name)
  {
    if skills == [] then []
    else
      var last := skills[|skills| - 1];
      Without(skills[..|skills| - 1], name) + (if Matches(last, name) then [] else [last])
  }

  // ---------------------------------------------------------------------
  // Properties of the list operations

  /** Any index with the first-match property is the one `FirstMatch` finds. */
  lemma FirstMatchUnique(skills: seq<SkillRecord>, name: string, k: int)
    requires 0 <= k < |skills| && Matches(skills[k], name)
    requires forall j :: 0 <= j < k ==> !Matches(skills[j], name)
    ensures FirstMatch(skills, name) == k
  {
  }

  /** On a match, only the first matching index changes, to the new
      spelling with level and category falling back to the old ones; the
      length is kept. Otherwise one record with the defaults is appended
      and every earlier record is kept. */
  lemma UpsertShape(skills: seq<SkillRecord>, name: string, level: int, category: string)
    requires SchemaAccepts(level, category)
    ensures var r, k := Upsert(skills, name, level, category), FirstMatch(skills, name);
            && (k >= 0 ==>
                  && |r| == |skills|
                  && r[k].name == name
                  && r[k].level == (if level == 0 then skills[k].level else level)
                  && r[k].category == (if category == "" then skills[k].category else ParseCategory(category).value)
                  && forall j :: 0 <= j < |skills| && j != k ==> r[j] == skills[j])
            && (k == -1 ==>
                  && |r| == |skills| + 1
                  && r[..|skills|] == skills
                  && r[|skills|].name == name
                  && r[|skills|].level == (if level == 0 then 1 else level)
                  && r[|skills|].category == (if category == "" then Technical else ParseCategory(category).value))
  {
  }

  /** After an upsert the list holds a record matching the name, and a
      list without duplicate names stays without them. */
  lemma UpsertKeepsNamesUnique(skills: seq<SkillRecord>, name: string, level: int, category: string)
    requires SchemaAccepts(level, category)
    ensures exists i :: 0 <= i < |Upsert(skills, name, level, category)| &&
                        Upsert(skills, name, level, category)[i].name == name
    ensures NoDuplicateNames(skills) ==> NoDuplicateNames(Upsert(skills, name, level, category))
  {
    var r, k := Upsert(skills, name, level, category), FirstMatch(skills, name);
    if k >= 0 {
      assert r[k].name == name;
      assert forall i :: 0 <= i < |r| ==> Lower(r[i].name) == Lower(skills[i].name);
    } else {
      assert r[|skills|].name == name;
      assert forall i :: 0 <= i < |skills| ==> r[i] == skills[i];
    }
  }

  /** Adding the same skill twice stores the same list as adding it once. */
  lemma UpsertIdempotent(skills: seq<SkillRecord>, name: string, level: int, category: string)
    requires SchemaAccepts(level, category)
    ensures Upsert(Upsert(skills, name, level, category), name, level, category) ==
              Upsert(skills, name, level, category)
  {
    var r, k := Upsert(skills, name, level, category), FirstMatch(skills, name);
    if k >= 0 {
      assert Matches(r[k], name);
      FirstMatchUnique(r, name, k);
    } else {
      assert Matches(r[|skills|], name);
      FirstMatchUnique(r, name, |skills|);
    }
  }

  /** On a list without duplicate names, the gap scorer reads for `name`
      exactly the level the upsert stored under that spelling. */
  lemma UpsertSeenByScorer(skills: seq<SkillRecord>, name: string, level: int, category: string)
    requires SchemaAccepts(level, category) && NoDuplicateNames(skills)
    ensures var r := Upsert(skills, name, level, category);
            exists i :: 0 <= i < |r| && r[i].name == name &&
                        GapScoring.CurrentLevel(GapScoring.SkillLevels(r), name) == r[i].level
  {
    var r := Upsert(skills, name, level, category);
    UpsertKeepsNamesUnique(skills, name, level, category);
    var i :| 0 <= i < |r| && r[i].name == name;
    GapScoring.SkillLevelsLastWins(r, Lower(name));
    var last :| 0 <= last < |r| && Lower(r[last].name) == Lower(name) &&
                GapScoring.SkillLevels(r)[Lower(name)] == r[last].level &&
                forall j :: last < j < |r| ==> Lower(r[j].name) != Lower(name);
    assert last == i;
  }

  /** Entries keep their order: the filter of a concatenation is the
      concatenation of the filters. */
  lemma {:induction false} WithoutAppend(a: seq<SkillRecord>, b: seq<SkillRecord>, name: string)
    ensures Without(a + b, name) == Without(a, name) + Without(b, name)
  {
    if b == [] {
      assert a + b == a;
    } else {
      assert (a + b)[..|a + b| - 1] == a + b[..|b| - 1];
      WithoutAppend(a, b[..|b| - 1], name);
    }
  }

  /** The records kept are exactly the non-matching ones: nothing left
      matches, and every non-matching record stays. */
  lemma {:induction false} WithoutMembers(skills: seq<SkillRecord>, name: string)
    ensures forall x :: x in Without(skills, name) <==> x in skills && !Matches(x, name)
  {
    if skills != [] {
      var init := skills[..|skills| - 1];
      WithoutMembers(init, name);
      assert skills == init + [skills[|skills| - 1]];
    }
  }

  /** The length is kept exactly when no record matches, and then the list
      is kept as it was: this is how the handler detects "not found". */
  lemma {:induction false} WithoutKeepsLengthIff(skills: seq<SkillRecord>, name: string)
    ensures |Without(skills, name)| == |skills| <==> forall i :: 0 <= i < |skills| ==> !Matches(skills[i], name)
    ensures |Without(skills, name)| == |skills| ==> Without(skills, name) == skills
  {
    if skills != [] {
      var n := |skills|;
      var init, last := skills[..n - 1], skills[n - 1];
      WithoutKeepsLengthIff(init, name);
      assert skills == init + [last];
      assert forall i :: 0 <= i < n - 1 ==> init[i] == skills[i];
      if Matches(last, name) {
        assert Without(skills, name) == Without(init, name);
        assert !(forall i :: 0 <= i < n ==> !Matches(skills[i], name));
      } else {
        assert Without(skills, name) == Without(init, name) + [last];
      }
    }
  }

  /** Removing keeps a list without duplicate names without them. */
  lemma {:induction false} WithoutKeepsNamesUnique(skills: seq<SkillRecord>, name: string)
    requires NoDuplicateNames(skills)
    ensures NoDuplicateNames(Without(skills, name))
  {
    if skills != [] {
      var n := |skills|;
      var init := skills[..n - 1];
      var last := skills[n - 1];
      assert NoDuplicateNames(init) by {
        assert forall i :: 0 <= i < n - 1 ==> init[i] == skills[i];
      }
      WithoutKeepsNamesUnique(init, name);
      WithoutMembers(init, name);
      var w := Without(init, name);
      if !Matches(last, name) {
        forall i | 0 <= i < |w| ensures Lower(w[i].name) != Lower(last.name) {
          assert w[i] in init;
          var j :| 0 <= j < n - 1 && init[j] == w[i];
          assert skills[j] == w[i];
        }
        assert Without(skills, name) == w + [last];
      }
    }
  }

  /** `findIndex` over the skill list. */
  method FindIndex(skills: seq<SkillRecord>, name: string) returns (index: int)
    ensures index == FirstMatch(skills, name)
  {
    var key := Lower(name);
    var i := 0;
    while i < |skills| && Lower(skills[i].name) != key
      invariant 0 <= i <= |skills|
      invariant forall j :: 0 <= j < i ==> !Matches(skills[j], name)
    {
      i := i + 1;
    }
    if i < |skills| {
      FirstMatchUnique(skills, name, i);
      index := i;
    } else {
      index := -1;
    }
  }

  /** The `filter` call of `removeSkill`: the records whose lower-case
      name differs from the lower-cased argument. */
  method FilterOut(skills: seq<SkillRecord>, name: string) returns (kept: seq<SkillRecord>)
    ensures kept == Without(skills, name)
  {
    var key := Lower(name);
    kept := [];
    var i := 0;
    while i < |skills|
      invariant 0 <= i <= |skills|
      invariant kept == Without(skills[..i], name)
    {
      assert skills[..i + 1][..i] == skills[..i];
      if Lower(skills[i].name) != key {
        kept := kept + [skills[i]];
      }
      i := i + 1;
    }
    assert skills[..|skills|] == skills;
  }

  datatype AddOutcome =
    | NameRequired      // 400 "Skill name is required"
    | ValidationFailed  // the schema refuses the document at save
    | Updated           // "Skill updated"
    | Added             // "Skill added"

  datatype RemoveOutcome = NotFound | Removed

  datatype TargetOutcome = TitleRequired | TargetSet

  /** The parts of a user document the skill controller changes. */
  class UserProfile {
    var skills: seq<SkillRecord>
    var targetJob: TargetJob

    /** What the controller keeps true: every stored name is non-empty and
        no two stored names agree up to case. */
    ghost predicate Valid()
      reads this
    {
      NoDuplicateNames(skills) && forall i :: 0 <= i < |skills| ==> skills[i].name != ""
    }

    /** A new document: no skills and no target job title. */
    constructor ()
      ensures Valid()
      ensures skills == [] && targetJob == TargetJob("", "", [])
    {
      skills := [];
      targetJob := TargetJob("", "", []);
    }

    /** `addSkill`: an empty name is refused; otherwise the first record
        matching the name is replaced in place, or a new one appended, and
        the result is stored unless the schema refuses it. */
    method AddSkill(name: string, level: int, category: string) returns (outcome: AddOutcome)
      modifies this
      ensures targetJob == old(targetJob)
      ensures name == "" ==> outcome == NameRequired && skills == old(skills)
      ensures name != "" && !SchemaAccepts(level, category) ==>
                outcome == ValidationFailed && skills == old(skills)
      ensures name != "" && SchemaAccepts(level, category) ==>
                && skills == Upsert(old(skills), name, level, category)
                && outcome == (if FirstMatch(old(skills), name) >= 0 then Updated else Added)
      ensures old(Valid()) ==> Valid()
    {
      if name == "" {
        return NameRequired;
      }
      var index := FindIndex(skills, name);
      if !SchemaAccepts(level, category) {
        return ValidationFailed;
      }
      ghost var before := skills;
      if index > -1 {
        var existing := skills[index];
        var newLevel: Level := if level != 0 then level else existing.level;
        var newCategory := if category != "" then ParseCategory(category).value else existing.category;
        skills := skills[index := SkillRecord(name, newLevel, newCategory)];
        outcome := Updated;
      } else {
        var newLevel: Level := if level != 0 then level else 1;
        var newCategory := if category != "" then ParseCategory(category).value else Technical;
        skills := skills + [SkillRecord(name, newLevel, newCategory)];
        outcome := Added;
      }
      UpsertKeepsNamesUnique(before, name, level, category);
    }

    /** `removeSkill`: drops every record matching the name, keeping the
        others in order; "not found" when the length did not change. */
    method RemoveSkill(name: string) returns (outcome: RemoveOutcome)
      modifies this
      ensures targetJob == old(targetJob)
      ensures skills == Without(old(skills), name)
      ensures outcome == NotFound <==> forall i :: 0 <= i < |old(skills)| ==> !Matches(old(skills)[i], name)
      ensures outcome == NotFound ==> skills == old(skills)
      ensures old(Valid()) ==> Valid()
    {
      var initialLength := |skills|;
      ghost var before := skills;
      skills := FilterOut(skills, name);
      WithoutKeepsLengthIff(before, name);
      WithoutMembers(before, name);
      if NoDuplicateNames(before) {
        WithoutKeepsNamesUnique(before, name);
      }
      forall i | 0 <= i < |skills| && old(Valid()) ensures skills[i].name != "" {
        assert skills[i] in before;
      }
      if |skills| == initialLength {
        return NotFound;
      }
      outcome := Removed;
    }

    /** `setTargetJob`: a title is required; industry defaults to "" and
        the required skills to the empty list. Any stored title gets a
        report from the intended analysis; the analysis as written fails on
        exactly the titles that name inherited members. */
    method SetTargetJob(title: string, industry: Option<string>, requiredSkills: Option<seq<string>>)
      returns (outcome: TargetOutcome)
      modifies this
      ensures skills == old(skills)
      ensures title == "" ==> outcome == TitleRequired && targetJob == old(targetJob)
      ensures title != "" ==>
                && outcome == TargetSet
                && targetJob.title == title
                && targetJob.industry == (if industry.Some? then industry.value else "")
                && targetJob.requiredSkills == (if requiredSkills.Some? then requiredSkills.value else [])
                && GapReport.AnalyzeIntended(skills, targetJob).Analysed?
                && (GapReport.Analyze(skills, targetJob).Analysed? <==> Lower(title) !in JobCatalog.InheritedKeys)
      ensures old(Valid()) ==> Valid()
    {
      if title == "" {
        return TitleRequired;
      }
      targetJob := TargetJob(title,
                             if industry.Some? then industry.value else "",
                             if requiredSkills.Some? then requiredSkills.value else []);
      outcome := TargetSet;
    }
  }
}
