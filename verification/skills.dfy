/** The skill catalogue (the `skills` table) and the attributes a user attaches
    to a skill through the `user_skills` pivot. */
module Skills {
  import opened Wrappers

  type SkillId = nat

  /** A catalogue entry; `category` is a nullable column. */
  datatype Skill = Skill(name: string, category: Option<string>)

  /** The `skills` table, keyed by id. */
  type Catalog = map<SkillId, Skill>

  /** A `user_skills` row without its key: the pivot data of one (user, skill)
      pair. Keeping a user's pivots in a map keyed by skill id makes the
      table's unique (user_id, skill_id) constraint hold by construction. */
  datatype Pivot = Pivot(proficiency: int, isPrimary: bool)

  /** The proficiency `addSkill` uses when none is given. */
  const DefaultProficiency: int := 3

  /** The category of a skill id, absent when the id is unknown or the
      column is null (reading a property of a missing relation yields null). */
  function CategoryOf(catalog: Catalog, id: SkillId): (c: Option<string>)
    ensures c.Some? ==> id in catalog && catalog[id].category == c
    ensures id in catalog ==> c == catalog[id].category
  {
    if id in catalog then catalog[id].category else None
  }
}
