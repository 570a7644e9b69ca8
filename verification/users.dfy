/** A platform user (the `users` table with its skill pivots and goals): role
    predicates, query scopes and the per-skill pivot operations. */
module Users {
  import opened Wrappers
  import opened Collections
  import opened Skills
  import opened Goals

  type UserId = nat

  datatype Role = Mentor | Mentee | Both | Admin

  datatype ExperienceLevel = Junior | Mid | Senior | Executive

  datatype CommunicationStyle = Direct | Supportive | Structured | Flexible | Casual

  /** The columns the matching logic reads. Nullable columns are `Option`s;
      `skills` is the user's `user_skills` rows keyed by skill id and `goals`
      the user's `mentee_goals` rows in stored order. */
  datatype User = User(
    id: UserId,
    role: Role,
    isActive: bool,
    experience: Option<ExperienceLevel>,
    industry: Option<string>,
    jobFunction: Option<string>,
    style: Option<CommunicationStyle>,
    timeZone: Option<string>,
    skills: map<SkillId, Pivot>,
    goals: seq<MenteeGoal>)

  predicate IsMentor(u: User) {
    u.role == Mentor || u.role == Both
  }

  predicate IsMentee(u: User) {
    u.role == Mentee || u.role == Both
  }

  /** How the roles map onto the two predicates: `both` satisfies both,
      `admin` neither, and every other user exactly one. */
  lemma RolePredicates(u: User)
    ensures IsMentor(u) && IsMentee(u) <==> u.role == Both
    ensures !IsMentor(u) && !IsMentee(u) <==> u.role == Admin
    ensures IsMentor(u) && !IsMentee(u) <==> u.role == Mentor
    ensures IsMentee(u) && !IsMentor(u) <==> u.role == Mentee
  {
  }

  /** The `mentors` scope. */
  function Mentors(users: seq<User>): (r: seq<User>)
    ensures forall u | u in r :: u in users && u.role in {Mentor, Both}
    ensures forall u | u in users && u.role in {Mentor, Both} :: u in r
  {
    Filter(users, (u: User) => IsMentor(u))
  }

  /** The `mentees` scope. */
  function Mentees(users: seq<User>): (r: seq<User>)
    ensures forall u | u in r :: u in users && u.role in {Mentee, Both}
    ensures forall u | u in users && u.role in {Mentee, Both} :: u in r
  {
    Filter(users, (u: User) => IsMentee(u))
  }

  /** The `active` scope. */
  function ActiveUsers(users: seq<User>): (r: seq<User>)
    ensures forall u | u in r :: u in users && u.isActive
    ensures forall u | u in users && u.isActive :: u in r
  {
    Filter(users, (u: User) => u.isActive)
  }

  /** Attaches `skill` with the given pivot data, overwriting the pivot if the
      user already holds it; every other skill and column is left alone. */
  function AddSkill(u: User, skill: SkillId, proficiency: int, isPrimary: bool): (r: User)
    ensures r.skills.Keys == u.skills.Keys + {skill}
    ensures r.skills[skill] == Pivot(proficiency, isPrimary)
    ensures forall s | s in u.skills && s != skill :: r.skills[s] == u.skills[s]
    ensures r.(skills := u.skills) == u
  {
    u.(skills := u.skills[skill := Pivot(proficiency, isPrimary)])
  }

  /** `addSkill` with its defaults: proficiency 3, not primary, so the skill
      is neither a primary nor an expert skill afterwards. */
  function AddSkillWithDefaults(u: User, skill: SkillId): (r: User)
    ensures r.skills.Keys == u.skills.Keys + {skill}
    ensures r.skills[skill].proficiency == DefaultProficiency && !r.skills[skill].isPrimary
    ensures skill !in PrimarySkills(r) && skill !in ExpertSkills(r)
    ensures forall s | s in u.skills && s != skill :: r.skills[s] == u.skills[s]
  {
    AddSkill(u, skill, DefaultProficiency, false)
  }

  /** Detaches `skill` only. */
  function RemoveSkill(u: User, skill: SkillId): (r: User)
    ensures r.skills.Keys == u.skills.Keys - {skill}
    ensures forall s | s in r.skills :: r.skills[s] == u.skills[s]
    ensures r.(skills := u.skills) == u
  {
    u.(skills := u.skills - {skill})
  }

  /** Removing a skill undoes adding it: the user is back to what it was,
      minus any earlier pivot for that skill. */
  lemma RemoveUndoesAdd(u: User, skill: SkillId, proficiency: int, isPrimary: bool)
    ensures RemoveSkill(AddSkill(u, skill, proficiency, isPrimary), skill) == RemoveSkill(u, skill)
    ensures skill !in u.skills ==> RemoveSkill(AddSkill(u, skill, proficiency, isPrimary), skill) == u
  {
    var added := AddSkill(u, skill, proficiency, isPrimary);
    assert RemoveSkill(added, skill).skills == RemoveSkill(u, skill).skills;
    if skill !in u.skills {
      assert RemoveSkill(u, skill).skills == u.skills;
    }
  }

  /** The `primarySkills` relation: the skills the user flagged as primary. */
  function PrimarySkills(u: User): (r: set<SkillId>)
    ensures forall s | s in r :: s in u.skills && u.skills[s].isPrimary
    ensures forall s | s in u.skills && u.skills[s].isPrimary :: s in r
  {
    set s | s in u.skills && u.skills[s].isPrimary
  }

  /** The `expertSkills` relation: the skills held at proficiency 4 or more. */
  function ExpertSkills(u: User): (r: set<SkillId>)
    ensures forall s | s in r :: s in u.skills && u.skills[s].proficiency >= 4
    ensures forall s | s in u.skills && u.skills[s].proficiency >= 4 :: s in r
  {
    set s | s in u.skills && u.skills[s].proficiency >= 4
  }

  /** What adding or removing a skill does to the two derived relations:
      only the touched skill's membership changes. */
  lemma SkillEditsAndDerivedRelations(u: User, skill: SkillId, proficiency: int, isPrimary: bool)
    ensures PrimarySkills(AddSkill(u, skill, proficiency, isPrimary))
      == (PrimarySkills(u) - {skill}) + (if isPrimary then {skill} else {})
    ensures ExpertSkills(AddSkill(u, skill, proficiency, isPrimary))
      == (ExpertSkills(u) - {skill}) + (if proficiency >= 4 then {skill} else {})
    ensures PrimarySkills(RemoveSkill(u, skill)) == PrimarySkills(u) - {skill}
    ensures ExpertSkills(RemoveSkill(u, skill)) == ExpertSkills(u) - {skill}
  {
  }
}
