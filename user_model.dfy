/** The skill record and target job of a user document, with the schema's
    bounds: a level is an integer from 1 to 5, a category is one of four
    names. */
module UserModel {

  /** A stored skill level (schema: min 1, max 5, default 1). */
  type Level = l: int | 1 <= l <= 5 witness 1

  datatype Category = Technical | Soft | Tool | Domain

  datatype SkillRecord = SkillRecord(name: string, level: Level, category: Category)

  /** `targetJob` of a user; an unset title is the empty string. */
  datatype TargetJob = TargetJob(title: string, industry: string, requiredSkills: seq<string>)

  /** The enumeration the schema accepts for `category`. */
  function ParseCategory(s: string): (r: Option<Category>)
    ensures r.Some? <==> s in {"technical", "soft", "tool", "domain"}
    ensures r.Some? ==> CategoryName(r.value) == s
  {
    if s == "technical" then Some(Technical)
    else if s == "soft" then Some(Soft)
    else if s == "tool" then Some(Tool)
    else if s == "domain" then Some(Domain)
    else None
  }

  function CategoryName(c: Category): string
  {
    match c
    case Technical => "technical"
    case Soft => "soft"
    case Tool => "tool"
    case Domain => "domain"
  }

  datatype Option<+T> = None | Some(value: T)
}
