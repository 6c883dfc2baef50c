/** The scoring part of `analyzeGaps`: per-requirement gaps, their
    priorities, the two counters the handler accumulates and the rounded
    readiness percentage, all as functions of the user's skill records and
    a requirement list. */
module GapScoring {
  import opened Text
  import opened UserModel
  import opened JobCatalog

  datatype Priority = High | Medium | Low

  datatype GapEntry = GapEntry(
    skill: string,
    currentLevel: int,
    requiredLevel: int,
    gap: int,
    priority: Priority,
    resources: seq<Resource>)

  /** The handler's `userSkillsMap`: lower-cased name to level, built in
      list order, so a later record overwrites an earlier one. */
  function SkillLevels(skills: seq<SkillRecord>): (m: map<string, Level>)
    ensures forall i :: 0 <= i < |skills| ==> Lower(skills[i].name) in m
  {
    if skills == [] then map[]
    else SkillLevels(skills[..|skills| - 1])[Lower(skills[|skills| - 1].name) := skills[|skills| - 1].level]
  }

  /** The user's level for a required skill; a skill the user lacks is 0. */
  function CurrentLevel(levels: map<string, Level>, skill: string): (l: int)
    ensures 0 <= l <= 5
    ensures l == 0 <==> Lower(skill) !in levels
  {
    if Lower(skill) in levels then levels[Lower(skill)] else 0
  }

  function Max(a: int, b: int): int { if a >= b then a else b }
  function Min(a: int, b: int): int { if a <= b then a else b }

  function GapFor(req: Requirement, levels: map<string, Level>): (g: int)
    ensures g >= 0
    ensures g > 0 <==> CurrentLevel(levels, req.name) < req.level
  {
    Max(0, req.level - CurrentLevel(levels, req.name))
  }

  /** The three-way classification. With integer levels a positive gap is
      never `Low` (see also `GapEntriesWellFormed`). */
  function PriorityOf(gap: int): (p: Priority)
    ensures p == High <==> gap >= 2
    ensures gap >= 1 ==> p != Low
  {
    if gap >= 2 then High else if gap == 1 then Medium else Low
  }

  function EntryFor(req: Requirement, levels: map<string, Level>): GapEntry
  {
    var gap := GapFor(req, levels);
    GapEntry(req.name, CurrentLevel(levels, req.name), req.level, gap, PriorityOf(gap),
             LearningResources(req.name))
  }

  /** The entries the handler pushes: one per requirement with a positive
      gap, in requirement order. */
  function Gaps(reqs: seq<Requirement>, levels: map<string, Level>): (gs: seq<GapEntry>)
    ensures |gs| <= |reqs|
  {
    if reqs == [] then []
    else
      var last := reqs[|reqs| - 1];
      Gaps(reqs[..|reqs| - 1], levels) + (if GapFor(last, levels) > 0 then [EntryFor(last, levels)] else [])
  }

  /** `totalGapScore` as the handler accumulates it: the gap of every
      requirement, added only when it is positive. */
  function TotalGapScore(reqs: seq<Requirement>, levels: map<string, Level>): (n: nat)
    ensures n <= 5 * |reqs|
  {
    if reqs == [] then 0
    else
      var g := GapFor(reqs[|reqs| - 1], levels);
      TotalGapScore(reqs[..|reqs| - 1], levels) + (if g > 0 then g else 0)
  }

  /** `criticalGaps` as the handler counts it: requirements with gap 2 or more. */
  function CriticalGaps(reqs: seq<Requirement>, levels: map<string, Level>): (n: nat)
    ensures n <= |reqs|
  {
    if reqs == [] then 0
    else
      CriticalGaps(reqs[..|reqs| - 1], levels) + (if GapFor(reqs[|reqs| - 1], levels) >= 2 then 1 else 0)
  }

  /** The credit the user earns: the smaller of the user's and the required
      level, per requirement. What is not earned is exactly the total gap
      score. */
  function UserPoints(reqs: seq<Requirement>, levels: map<string, Level>): (u: nat)
    ensures u + TotalGapScore(reqs, levels) == RequiredPoints(reqs)
  {
    if reqs == [] then 0
    else
      var last := reqs[|reqs| - 1];
      UserPoints(reqs[..|reqs| - 1], levels) + Min(CurrentLevel(levels, last.name), last.level)
  }

  /** `Math.round((u / t) * 100)` on exact rationals: round half up of 100u/t. */
  function RoundedPercent(u: nat, t: nat): (p: int)
    requires t > 0
    ensures 2 * t * p <= 200 * u + t < 2 * t * (p + 1)
  {
    (200 * u + t) / (2 * t)
  }

  /** Sum of the `gap` fields of a list of entries. */
  function SumOfGaps(gs: seq<GapEntry>): int
  {
    if gs == [] then 0 else SumOfGaps(gs[..|gs| - 1]) + gs[|gs| - 1].gap
  }

  /** Number of entries of a given priority (the handler's `filter(...).length`). */
  function CountPriority(gs: seq<GapEntry>, p: Priority): (n: nat)
    ensures n <= |gs|
  {
    if gs == [] then 0 else CountPriority(gs[..|gs| - 1], p) + (if gs[|gs| - 1].priority == p then 1 else 0)
  }

  // ---------------------------------------------------------------------
  // Properties of the scorer

  /** Case-insensitive lookup with the last record winning: a lower-cased
      name is a key exactly when some record has it, and its level is that
      of the last such record. */
  lemma {:induction false} SkillLevelsLastWins(skills: seq<SkillRecord>, key: string)
    ensures key in SkillLevels(skills) <==> exists i :: 0 <= i < |skills| && Lower(skills[i].name) == key
    ensures key in SkillLevels(skills) ==>
              exists i :: 0 <= i < |skills| && Lower(skills[i].name) == key &&
                SkillLevels(skills)[key] == skills[i].level &&
                forall j :: i < j < |skills| ==> Lower(skills[j].name) != key
  {
    if skills != [] {
      var n := |skills|;
      var init := skills[..n - 1];
      SkillLevelsLastWins(init, key);
      if Lower(skills[n - 1].name) != key {
        if key in SkillLevels(init) {
          var i :| 0 <= i < |init| && Lower(init[i].name) == key &&
                   SkillLevels(init)[key] == init[i].level &&
                   forall j :: i < j < |init| ==> Lower(init[j].name) != key;
          assert skills[i] == init[i];
          assert forall j :: i < j < n ==> Lower(skills[j].name) != key by {
            forall j | i < j < n ensures Lower(skills[j].name) != key {
              if j < n - 1 { assert skills[j] == init[j]; }
            }
          }
        }
        forall i | 0 <= i < n && Lower(skills[i].name) == key
          ensures key in SkillLevels(init)
        {
          assert init[i] == skills[i];
        }
      }
    }
  }

  /** Every emitted entry carries a positive gap equal to required minus
      current level, is `High` exactly when the gap is 2 or more and
      `Medium` exactly when it is 1 (so never `Low`), and lists the
      resources for its skill. */
  lemma {:induction false} GapEntriesWellFormed(reqs: seq<Requirement>, levels: map<string, Level>)
    ensures forall e :: e in Gaps(reqs, levels) ==>
              && e.gap >= 1
              && e.gap == e.requiredLevel - e.currentLevel
              && (e.priority == High <==> e.gap >= 2)
              && (e.priority == Medium <==> e.gap == 1)
              && e.priority != Low
              && e.resources == LearningResources(e.skill)
  {
    if reqs != [] {
      GapEntriesWellFormed(reqs[..|reqs| - 1], levels);
    }
  }

  /** Entries follow requirement order: the entries of a concatenation are
      the entries of each part, in order. */
  lemma {:induction false} GapsAppend(a: seq<Requirement>, b: seq<Requirement>, levels: map<string, Level>)
    ensures Gaps(a + b, levels) == Gaps(a, levels) + Gaps(b, levels)
  {
    if b == [] {
      assert a + b == a;
    } else {
      var n := |b|;
      assert (a + b)[..|a + b| - 1] == a + b[..n - 1];
      GapsAppend(a, b[..n - 1], levels);
    }
  }

  /** A single requirement yields an entry exactly when the user's level is
      below the required one. */
  lemma GapsOfOne(r: Requirement, levels: map<string, Level>)
    ensures Gaps([r], levels) ==
              if CurrentLevel(levels, r.name) < r.level then [EntryFor(r, levels)] else []
  {
    assert [r][..0] == [];
  }

  /** There are no entries exactly when every required level is met. */
  lemma {:induction false} NoGapsIff(reqs: seq<Requirement>, levels: map<string, Level>)
    ensures Gaps(reqs, levels) == [] <==>
              forall i :: 0 <= i < |reqs| ==> CurrentLevel(levels, reqs[i].name) >= reqs[i].level
  {
    if reqs != [] {
      var n := |reqs|;
      var init := reqs[..n - 1];
      NoGapsIff(init, levels);
      assert forall i :: 0 <= i < n - 1 ==> init[i] == reqs[i];
    }
  }

  /** When no required level is met, every requirement has its entry. */
  lemma {:induction false} AllUnmetAllListed(reqs: seq<Requirement>, levels: map<string, Level>)
    requires forall i :: 0 <= i < |reqs| ==> CurrentLevel(levels, reqs[i].name) < reqs[i].level
    ensures |Gaps(reqs, levels)| == |reqs|
  {
    if reqs != [] {
      var n := |reqs|;
      var init := reqs[..n - 1];
      assert forall i :: 0 <= i < n - 1 ==> init[i] == reqs[i];
      AllUnmetAllListed(init, levels);
    }
  }

  lemma SumOfGapsSnoc(gs: seq<GapEntry>, e: GapEntry)
    ensures SumOfGaps(gs + [e]) == SumOfGaps(gs) + e.gap
    ensures CountPriority(gs + [e], High) == CountPriority(gs, High) + (if e.priority == High then 1 else 0)
  {
    assert (gs + [e])[..|gs|] == gs;
  }

  /** `totalGapScore`, accumulated over the requirements, is the sum of
      the gaps of the emitted entries. */
  lemma {:induction false} TotalGapScoreIsSum(reqs: seq<Requirement>, levels: map<string, Level>)
    ensures TotalGapScore(reqs, levels) == SumOfGaps(Gaps(reqs, levels))
  {
    if reqs != [] {
      var n := |reqs|;
      var init := reqs[..n - 1];
      var last := reqs[n - 1];
      TotalGapScoreIsSum(init, levels);
      var g := GapFor(last, levels);
      assert TotalGapScore(reqs, levels) == TotalGapScore(init, levels) + (if g > 0 then g else 0);
      if g > 0 {
        assert Gaps(reqs, levels) == Gaps(init, levels) + [EntryFor(last, levels)];
        SumOfGapsSnoc(Gaps(init, levels), EntryFor(last, levels));
      } else {
        assert Gaps(reqs, levels) == Gaps(init, levels);
      }
    }
  }

  /** `criticalGaps`, counted over the requirements, is the number of
      high-priority entries. */
  lemma {:induction false} CriticalGapsIsHighCount(reqs: seq<Requirement>, levels: map<string, Level>)
    ensures CriticalGaps(reqs, levels) == CountPriority(Gaps(reqs, levels), High)
  {
    if reqs != [] {
      var n := |reqs|;
      var init := reqs[..n - 1];
      var last := reqs[n - 1];
      CriticalGapsIsHighCount(init, levels);
      var g := GapFor(last, levels);
      assert CriticalGaps(reqs, levels) == CriticalGaps(init, levels) + (if g >= 2 then 1 else 0);
      if g > 0 {
        assert Gaps(reqs, levels) == Gaps(init, levels) + [EntryFor(last, levels)];
        assert EntryFor(last, levels).priority == High <==> g >= 2;
        SumOfGapsSnoc(Gaps(init, levels), EntryFor(last, levels));
      } else {
        assert Gaps(reqs, levels) == Gaps(init, levels);
      }
    }
  }

  /** Credit is capped per skill: the user's points never exceed the
      required points, and reach them exactly when there is no gap. */
  lemma {:induction false} UserPointsBounds(reqs: seq<Requirement>, levels: map<string, Level>)
    ensures UserPoints(reqs, levels) <= RequiredPoints(reqs)
    ensures UserPoints(reqs, levels) == RequiredPoints(reqs) <==> Gaps(reqs, levels) == []
  {
    if reqs != [] {
      var n := |reqs|;
      var init, last := reqs[..n - 1], reqs[n - 1];
      UserPointsBounds(init, levels);
      assert UserPoints(reqs, levels) == UserPoints(init, levels) + Min(CurrentLevel(levels, last.name), last.level);
      assert RequiredPoints(reqs) == RequiredPoints(init) + last.level;
      assert Gaps(reqs, levels) == [] <==> Gaps(init, levels) == [] && GapFor(last, levels) == 0;
    }
  }

  /** The user's points are 0 exactly when the user holds none of the
      required skills. */
  lemma {:induction false} UserPointsZeroIff(reqs: seq<Requirement>, levels: map<string, Level>)
    ensures UserPoints(reqs, levels) == 0 <==>
              forall i :: 0 <= i < |reqs| ==> Lower(reqs[i].name) !in levels
  {
    if reqs != [] {
      var n := |reqs|;
      var init := reqs[..n - 1];
      UserPointsZeroIff(init, levels);
      assert forall i :: 0 <= i < n - 1 ==> init[i] == reqs[i];
    }
  }

  /** Multiplication by a positive factor preserves strict order. */
  lemma MulLt(d: int, a: int, b: int)
    requires d > 0 && d * a < d * b
    ensures a < b
  {
  }

  /** Euclidean division pinned by its bracketing multiples. */
  lemma DivIs(x: int, d: int, q: int)
    requires d > 0 && d * q <= x < d * (q + 1)
    ensures x / d == q
  {
    var r := x / d;
    assert d * r <= x < d * (r + 1);
    MulLt(d, q, r + 1);
    MulLt(d, r, q + 1);
  }

  /** The rounded percentage of capped credit lies in [0, 100]; when the
      total is below 200 it is 100 exactly when every point is earned and 0
      exactly when none is. */
  lemma ReadinessBounds(u: nat, t: nat)
    requires 0 < t && u <= t
    ensures 0 <= RoundedPercent(u, t) <= 100
    ensures t < 200 ==> (RoundedPercent(u, t) == 100 <==> u == t)
    ensures t < 200 ==> (RoundedPercent(u, t) == 0 <==> u == 0)
  {
    var x, d := 200 * u + t, 2 * t;
    var p := RoundedPercent(u, t);
    assert d * p <= x < d * (p + 1);
    assert d * 0 == 0 && d * 101 == 202 * t;
    MulLt(d, 0, p + 1);
    MulLt(d, p, 101);
    if u == t {
      DivIs(x, d, 100);
    }
    if u == 0 {
      DivIs(x, d, 0);
    }
    if p == 100 {
      assert d * 100 == 200 * t;
    }
    if p == 0 {
      assert d * 1 == 2 * t;
    }
  }
}
