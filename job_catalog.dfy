/** The two fixed tables of the gap controller: the skills each known job
    title requires, and the learning resources known for some skills. */
module JobCatalog {
  import opened Text
  import opened UserModel

  datatype Requirement = Requirement(name: string, level: Level)

  /** The title whose requirements every unknown title gets. */
  const DefaultTitle: string := "full stack developer"

  const FrontendRequirements: seq<Requirement> := [
    Requirement("HTML", 4), Requirement("CSS", 4), Requirement("JavaScript", 4),
    Requirement("React", 3), Requirement("Git", 3), Requirement("Problem Solving", 4),
    Requirement("Communication", 3)]

  const BackendRequirements: seq<Requirement> := [
    Requirement("Node.js", 4), Requirement("Express", 4), Requirement("MongoDB", 3),
    Requirement("REST API", 4), Requirement("Git", 3), Requirement("Problem Solving", 4),
    Requirement("Database Design", 3)]

  const FullStackRequirements: seq<Requirement> := [
    Requirement("HTML", 4), Requirement("CSS", 4), Requirement("JavaScript", 4),
    Requirement("React", 3), Requirement("Node.js", 4), Requirement("Express", 4),
    Requirement("MongoDB", 3), Requirement("Git", 4), Requirement("Problem Solving", 4)]

  const DataAnalystRequirements: seq<Requirement> := [
    Requirement("Python", 4), Requirement("SQL", 4), Requirement("Excel", 4),
    Requirement("Data Visualization", 3), Requirement("Statistics", 3),
    Requirement("Critical Thinking", 4)]

  /** Job title (lower case) to its ordered required skills. */
  const JobRequirements: map<string, seq<Requirement>> := map[
    "frontend developer" := FrontendRequirements,
    "backend developer" := BackendRequirements,
    DefaultTitle := FullStackRequirements,
    "data analyst" := DataAnalystRequirements
  ]

  /** The property names a plain JavaScript object inherits from
      `Object.prototype` that are entirely lower case, and so can be the
      lower-cased title: `constructor` (the `Object` function) and
      `__proto__` (the prototype object). Both are truthy, and neither has
      a `requiredSkills` list. */
  const InheritedKeys: set<string> := {"constructor", "__proto__"}

  /** What the table lookup yields: a requirement list, or an inherited
      member that is not a profile. */
  datatype Profile = Listed(reqs: seq<Requirement>) | Inherited

  /** The lookup as the handler writes it, on a plain object: the table's
      own entries, then the inherited members, then the full stack
      fallback for a falsy result. */
  function ProfileLookup(title: string): (r: Profile)
    ensures r.Inherited? <==> Lower(title) in InheritedKeys
    ensures r.Listed? ==> r.reqs == RequirementsFor(title)
  {
    var key := Lower(title);
    if key in JobRequirements then Listed(JobRequirements[key])
    else if key in InheritedKeys then Inherited
    else Listed(JobRequirements[DefaultTitle])
  }

  /** The requirements for a title as the lookup is evidently meant: the
      table's own entry for its lower-case form, with the full stack
      profile as the fallback for every other title. */
  function RequirementsFor(title: string): (r: seq<Requirement>)
    ensures Lower(title) in JobRequirements ==> r == JobRequirements[Lower(title)]
    ensures Lower(title) !in JobRequirements ==> r == JobRequirements[DefaultTitle]
    ensures |r| > 0
  {
    var key := Lower(title);
    if key in JobRequirements then JobRequirements[key] else JobRequirements[DefaultTitle]
  }

  /** The default title resolves to the full stack profile. */
  lemma DefaultTitleResolves()
    ensures RequirementsFor(DefaultTitle) == FullStackRequirements
  {
    assert Lower(DefaultTitle) == DefaultTitle;
  }

  /** An unknown title resolves to the same list as the default title. */
  lemma UnknownTitleResolves(title: string)
    requires Lower(title) !in JobRequirements
    ensures RequirementsFor(title) == RequirementsFor(DefaultTitle) == FullStackRequirements
  {
    DefaultTitleResolves();
  }

  /** The sum of the required levels of a requirement list. */
  function RequiredPoints(reqs: seq<Requirement>): (t: nat)
    ensures |reqs| > 0 ==> t >= |reqs|
    ensures t <= 5 * |reqs|
  {
    if reqs == [] then 0 else RequiredPoints(reqs[..|reqs| - 1]) + reqs[|reqs| - 1].level
  }

  /** A learning resource; `kind` is the source's `type` field. */
  datatype Resource = Resource(title: string, url: string, kind: string)

  const ResourceCatalog: map<string, seq<Resource>> := map[
    "html" := [
      Resource("HTML Crash Course", "https://www.w3schools.com/html/", "tutorial"),
      Resource("MDN HTML Guide", "https://developer.mozilla.org/en-US/docs/Web/HTML", "documentation")],
    "css" := [
      Resource("CSS Tutorial", "https://www.w3schools.com/css/", "tutorial"),
      Resource("Flexbox Guide", "https://css-tricks.com/snippets/css/a-guide-to-flexbox/", "article")],
    "javascript" := [
      Resource("JavaScript.info", "https://javascript.info/", "tutorial"),
      Resource("MDN JavaScript", "https://developer.mozilla.org/en-US/docs/Web/JavaScript", "documentation")],
    "react" := [
      Resource("React Official Tutorial", "https://reactjs.org/tutorial/tutorial.html", "tutorial"),
      Resource("React Docs", "https://react.dev/learn", "documentation")],
    "node.js" := [
      Resource("Node.js Official Docs", "https://nodejs.org/en/docs/", "documentation"),
      Resource("Node.js Tutorial", "https://www.tutorialspoint.com/nodejs/", "tutorial")],
    "express" := [
      Resource("Express.js Guide", "https://expressjs.com/en/starter/installing.html", "documentation"),
      Resource("Express Crash Course", "https://www.youtube.com/watch?v=L72fhGm1tfE", "video")],
    "mongodb" := [
      Resource("MongoDB University", "https://university.mongodb.com/", "course"),
      Resource("MongoDB Docs", "https://docs.mongodb.com/", "documentation")],
    "git" := [
      Resource("Git Tutorial", "https://www.atlassian.com/git/tutorials", "tutorial"),
      Resource("Git Cheat Sheet", "https://education.github.com/git-cheat-sheet-education.pdf", "cheatsheet")],
    "python" := [
      Resource("Python Official Tutorial", "https://docs.python.org/3/tutorial/", "tutorial"),
      Resource("Python for Everybody", "https://www.py4e.com/", "course")],
    "sql" := [
      Resource("SQL Tutorial", "https://www.w3schools.com/sql/", "tutorial"),
      Resource("SQLZoo", "https://sqlzoo.net/", "practice")]
  ]

  /** The single entry synthesised for a skill the catalog does not know:
      a search link, titled after the name as given. */
  function SearchFallback(skillName: string): Resource
  {
    Resource(skillName + " Documentation",
             "https://www.google.com/search?q=" + skillName + "+tutorial", "search")
  }

  function LearningResources(skillName: string): (r: seq<Resource>)
    ensures Lower(skillName) in ResourceCatalog ==> r == ResourceCatalog[Lower(skillName)]
    ensures Lower(skillName) !in ResourceCatalog ==>
              |r| == 1 && r[0].kind == "search" && r[0].title == skillName + " Documentation"
    ensures |r| > 0
  {
    var key := Lower(skillName);
    if key in ResourceCatalog then ResourceCatalog[key] else [SearchFallback(skillName)]
  }

  /** No skill name of the list has the length of an inherited key. */
  predicate AvoidsInheritedLengths(reqs: seq<Requirement>)
  {
    forall i :: 0 <= i < |reqs| ==> |reqs[i].name| != 9 && |reqs[i].name| != 11
  }

  /** Every title resolves to one of the four profiles. */
  lemma ResolvesToProfile(title: string)
    ensures RequirementsFor(title) in {FrontendRequirements, BackendRequirements,
                                       FullStackRequirements, DataAnalystRequirements}
  {
  }

  /** Every skill name of every profile lower-cases to a key no object
      inherits, so the resource lookup for a reported gap never meets an
      inherited member: no such name has the length of an inherited key. */
  lemma {:induction false} CatalogNamesNotInherited(title: string)
    ensures forall q :: q in RequirementsFor(title) ==> Lower(q.name) !in InheritedKeys
  {
    assert AvoidsInheritedLengths(FrontendRequirements);
    assert AvoidsInheritedLengths(BackendRequirements);
    assert AvoidsInheritedLengths(FullStackRequirements);
    assert AvoidsInheritedLengths(DataAnalystRequirements);
    ResolvesToProfile(title);
    var reqs := RequirementsFor(title);
    forall q | q in reqs ensures Lower(q.name) !in InheritedKeys {
      var i :| 0 <= i < |reqs| && reqs[i] == q;
      assert |Lower(q.name)| == |q.name|;
    }
  }

  /** Every title, known or not, resolves to a non-empty list whose total
      required points are positive and below 200: the readiness division
      is defined, and its rounding cannot reach 100 before every point is
      earned. */
  lemma {:induction false} CatalogTotals(title: string)
    ensures 0 < RequiredPoints(RequirementsFor(title)) < 200
  {
    var r := RequirementsFor(title);
    assert |r| <= 9 by {
      assert forall k :: k in JobRequirements ==> |JobRequirements[k]| <= 9;
    }
  }
}
