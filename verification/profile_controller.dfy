/** Saving one's own profile (`ProfileController::update`): the accepted
    input domain, the skill-pivot sync and the wholesale goal replacement. */
module ProfileController {
  import opened Wrappers
  import opened Skills
  import opened Goals
  import opened Users
  import opened Responses

  datatype SkillEntry = SkillEntry(id: SkillId, proficiency: int, isPrimary: Option<bool>)

  datatype GoalEntry = GoalEntry(skillId: SkillId, priority: int, description: Option<string>)

  /** The submitted form. Nullable inputs are `Option`s; `skills` and `goals`
      are `None` when the request leaves the array out. */
  datatype ProfileForm = ProfileForm(
    name: string,
    industry: Option<string>,
    jobFunction: Option<string>,
    experience: string,
    style: Option<string>,
    timeZone: Option<string>,
    skills: Option<seq<SkillEntry>>,
    goals: Option<seq<GoalEntry>>)

  datatype ProfileField =
    | NameField | IndustryField | FunctionField | ExperienceField | StyleField | TimeZoneField
    | SkillIdField(skill: nat) | ProficiencyField(skill: nat)
    | GoalSkillField(goal: nat) | PriorityField(goal: nat)

  datatype Refusal = Invalid(fields: set<ProfileField>)

  // ------------------------------------------------------------ enumerations

  function ExperienceName(e: ExperienceLevel): string {
    match e
    case Junior => "junior"
    case Mid => "mid"
    case Senior => "senior"
    case Executive => "executive"
  }

  function ParseExperience(s: string): (r: Option<ExperienceLevel>)
    ensures r.Some? ==> ExperienceName(r.value) == s
    ensures forall e: ExperienceLevel :: s == ExperienceName(e) ==> r == Some(e)
  {
    if s == "junior" then Some(Junior)
    else if s == "mid" then Some(Mid)
    else if s == "senior" then Some(Senior)
    else if s == "executive" then Some(Executive)
    else None
  }

  function StyleName(c: CommunicationStyle): string {
    match c
    case Direct => "direct"
    case Supportive => "supportive"
    case Structured => "structured"
    case Flexible => "flexible"
    case Casual => "casual"
  }

  function ParseStyle(s: string): (r: Option<CommunicationStyle>)
    ensures r.Some? ==> StyleName(r.value) == s
    ensures forall c: CommunicationStyle :: s == StyleName(c) ==> r == Some(c)
  {
    if s == "direct" then Some(Direct)
    else if s == "supportive" then Some(Supportive)
    else if s == "structured" then Some(Structured)
    else if s == "flexible" then Some(Flexible)
    else if s == "casual" then Some(Casual)
    else None
  }

  // -------------------------------------------------------------- validation

  /** The characters PHP's `trim` strips; a required string made only of
      these counts as missing. */
  predicate Blank(s: string) {
    forall i | 0 <= i < |s| :: s[i] in {' ', '\t', '\n', '\r', '\0', '\U{000B}'}
  }

  predicate TooLong(s: Option<string>, max: nat) {
    s.Some? && |s.value| > max
  }

  /** The scalar inputs that fail validation. */
  function InfoErrors(form: ProfileForm): (e: set<ProfileField>)
    ensures NameField in e <==> Blank(form.name) || |form.name| > 255
    ensures IndustryField in e <==> TooLong(form.industry, 100)
    ensures FunctionField in e <==> TooLong(form.jobFunction, 100)
    ensures ExperienceField in e <==> ParseExperience(form.experience).None?
    ensures StyleField in e <==> form.style.Some? && ParseStyle(form.style.value).None?
    ensures TimeZoneField in e <==> TooLong(form.timeZone, 50)
    ensures forall f | f in e :: f.NameField? || f.IndustryField? || f.FunctionField? || f.ExperienceField?
                                 || f.StyleField? || f.TimeZoneField?
  {
    (if Blank(form.name) || |form.name| > 255 then {NameField} else {})
    + (if TooLong(form.industry, 100) then {IndustryField} else {})
    + (if TooLong(form.jobFunction, 100) then {FunctionField} else {})
    + (if ParseExperience(form.experience).None? then {ExperienceField} else {})
    + (if form.style.Some? && ParseStyle(form.style.value).None? then {StyleField} else {})
    + (if TooLong(form.timeZone, 50) then {TimeZoneField} else {})
  }

  /** The skill entries that fail validation: an id outside the catalogue,
      a proficiency outside 1..5. */
  function SkillErrors(catalog: Catalog, skills: seq<SkillEntry>): (e: set<ProfileField>)
    ensures forall i: nat :: SkillIdField(i) in e <==> i < |skills| && skills[i].id !in catalog
    ensures forall i: nat :: ProficiencyField(i) in e <==> i < |skills| && !(1 <= skills[i].proficiency <= 5)
    ensures forall f | f in e :: f.SkillIdField? || f.ProficiencyField?
  {
    (set i | 0 <= i < |skills| && skills[i].id !in catalog :: SkillIdField(i))
    + (set i | 0 <= i < |skills| && !(1 <= skills[i].proficiency <= 5) :: ProficiencyField(i))
  }

  /** The goal entries that fail validation: a skill outside the catalogue,
      a priority outside 1..3. */
  function GoalErrors(catalog: Catalog, goals: seq<GoalEntry>): (e: set<ProfileField>)
    ensures forall i: nat :: GoalSkillField(i) in e <==> i < |goals| && goals[i].skillId !in catalog
    ensures forall i: nat :: PriorityField(i) in e <==> i < |goals| && !(1 <= goals[i].priority <= 3)
    ensures forall f | f in e :: f.GoalSkillField? || f.PriorityField?
  {
    (set i | 0 <= i < |goals| && goals[i].skillId !in catalog :: GoalSkillField(i))
    + (set i | 0 <= i < |goals| && !(1 <= goals[i].priority <= 3) :: PriorityField(i))
  }

  /** Every input that fails validation; array entries are named by their
      position, and an array left out has no entries to check. */
  function ProfileErrors(catalog: Catalog, form: ProfileForm): (e: set<ProfileField>)
    ensures e == {} <==>
      InfoErrors(form) == {} && SkillErrors(catalog, form.skills.GetOr([])) == {}
      && GoalErrors(catalog, form.goals.GetOr([])) == {}
  {
    InfoErrors(form) + SkillErrors(catalog, form.skills.GetOr([])) + GoalErrors(catalog, form.goals.GetOr([]))
  }

  // ------------------------------------------------------------- skill sync

  function PivotOf(e: SkillEntry): Pivot {
    Pivot(e.proficiency, e.isPrimary.GetOr(false))
  }

  /** No later entry names the same skill as entry `i`. */
  predicate LastFor(entries: seq<SkillEntry>, i: nat)
    requires i < |entries|
  {
    forall j | i < j < |entries| :: entries[j].id != entries[i].id
  }

  /** The skill ids the form submits. */
  function SubmittedIds(entries: seq<SkillEntry>): set<SkillId> {
    set e | e in entries :: e.id
  }

  /** The id-keyed pivot map the sync is given: exactly the submitted ids,
      each with the pivot of its last entry. */
  function SkillsData(entries: seq<SkillEntry>): (r: map<SkillId, Pivot>)
    ensures r.Keys == SubmittedIds(entries)
    ensures forall i | 0 <= i < |entries| && LastFor(entries, i) :: r[entries[i].id] == PivotOf(entries[i])
  {
    if |entries| == 0 then map[]
    else
      var n := |entries| - 1;
      var init := SkillsData(entries[..n]);
      assert entries == entries[..n] + [entries[n]];
      var r := init[entries[n].id := PivotOf(entries[n])];
      assert SubmittedIds(entries) == SubmittedIds(entries[..n]) + {entries[n].id};
      assert forall i | 0 <= i < |entries| && LastFor(entries, i) :: r[entries[i].id] == PivotOf(entries[i]) by {
        forall i | 0 <= i < |entries| && LastFor(entries, i)
          ensures r[entries[i].id] == PivotOf(entries[i])
        {
          if i < n {
            assert entries[..n][i] == entries[i];
            assert LastFor(entries[..n], i);
          }
        }
      }
      r
  }

  /** A skill listed twice keeps the second entry's pivot. */
  lemma LaterDuplicateWins()
    ensures SkillsData([SkillEntry(7, 2, None), SkillEntry(7, 5, Some(true))]) == map[7 := Pivot(5, true)]
  {
    var entries := [SkillEntry(7, 2, None), SkillEntry(7, 5, Some(true))];
    assert LastFor(entries, 1);
  }

  // -------------------------------------------------------- goal replacement

  /** A goal created from the form: active, with no target date or notes. */
  function NewGoal(menteeId: UserId, e: GoalEntry): (g: MenteeGoal)
    ensures g.status == Active && g.targetDate.None? && g.progressNotes.None?
    ensures g.menteeId == menteeId && g.skillId == e.skillId
    ensures g.priority == e.priority && g.description == e.description
  {
    MenteeGoal(menteeId, e.skillId, e.priority, e.description, None, Active, None)
  }

  function NewGoals(menteeId: UserId, entries: seq<GoalEntry>): (r: seq<MenteeGoal>)
    ensures |r| == |entries|
    ensures forall i | 0 <= i < |entries| :: r[i] == NewGoal(menteeId, entries[i])
  {
    seq(|entries|, i requires 0 <= i < |entries| => NewGoal(menteeId, entries[i]))
  }

  /** No two entries name the same skill (the unique (mentee_id, skill_id)
      constraint on goals). */
  ghost predicate DistinctSkills(entries: seq<GoalEntry>) {
    forall i, j | 0 <= i < j < |entries| :: entries[i].skillId != entries[j].skillId
  }

  /** The position of the first entry whose skill an earlier entry already
      names, or the length when there is none. */
  function FirstRepeat(entries: seq<GoalEntry>): (k: nat)
    ensures k <= |entries|
    ensures DistinctSkills(entries[..k])
    ensures k < |entries| ==> exists i | 0 <= i < k :: entries[i].skillId == entries[k].skillId
  {
    if |entries| == 0 then 0
    else
      var n := |entries| - 1;
      var k := FirstRepeat(entries[..n]);
      assert entries[..n][..k] == entries[..k];
      if k < n then k
      else if exists i | 0 <= i < n :: entries[i].skillId == entries[n].skillId then n
      else
        assert entries[..|entries|] == entries;
        |entries|
  }

  /** The goal replacement: the old goals are deleted and the entries are
      created one by one. A second goal for a skill breaks the unique
      constraint: the goals created before it stay and the request fails. */
  function ReplaceGoals(u: User, entries: seq<GoalEntry>): (r: Outcome<User, Refusal>)
    ensures !r.Refused? && r.state == u.(goals := r.state.goals)
    ensures r.Crashed? <==> !DistinctSkills(entries)
    ensures var k := |r.state.goals|;
      && k <= |entries|
      && (k == |entries| <==> r.Done?)
      && (forall i | 0 <= i < k :: r.state.goals[i] == NewGoal(u.id, entries[i]))
      && (k < |entries| ==> exists i | 0 <= i < k :: entries[i].skillId == entries[k].skillId)
  {
    var k := FirstRepeat(entries);
    if k < |entries| then
      Crashed(u.(goals := NewGoals(u.id, entries[..k])))
    else
      assert entries[..k] == entries;
      Done(u.(goals := NewGoals(u.id, entries)))
  }

  // ------------------------------------------------------------------ update

  /** The profile columns written from a valid form. */
  function WithInfo(user: User, form: ProfileForm): (u: User)
    requires ParseExperience(form.experience).Some?
    requires form.style.Some? ==> ParseStyle(form.style.value).Some?
    ensures u.id == user.id && u.role == user.role && u.isActive == user.isActive
    ensures u.skills == user.skills && u.goals == user.goals
    ensures u.industry == form.industry && u.jobFunction == form.jobFunction && u.timeZone == form.timeZone
    ensures u.experience.Some? && ExperienceName(u.experience.value) == form.experience
    ensures u.style.Some? <==> form.style.Some?
    ensures u.style.Some? ==> StyleName(u.style.value) == form.style.value
  {
    user.(
      industry := form.industry,
      jobFunction := form.jobFunction,
      experience := Some(ParseExperience(form.experience).value),
      style := if form.style.Some? then Some(ParseStyle(form.style.value).value) else None,
      timeZone := form.timeZone)
  }

  /** `update`: validate everything, write the profile columns, sync the
      skills when they were submitted, then, for a mentee who submitted
      goals, delete the old goals and create the new ones one by one. A
      second goal for the same skill breaks the unique constraint half-way:
      the goals created before it stay and the request fails. */
  function UpdateProfile(catalog: Catalog, user: User, form: ProfileForm): (r: Outcome<User, Refusal>)
    ensures r.Refused? <==> ProfileErrors(catalog, form) != {}
    ensures r.Refused? ==> r.reason.fields == ProfileErrors(catalog, form)
    ensures !r.Refused? ==> var u := r.state;
      && u.id == user.id && u.role == user.role && u.isActive == user.isActive
      && u.industry == form.industry && u.jobFunction == form.jobFunction && u.timeZone == form.timeZone
      && u.experience.Some? && ExperienceName(u.experience.value) == form.experience
      && (u.style.Some? <==> form.style.Some?)
      && (u.style.Some? ==> StyleName(u.style.value) == form.style.value)
    ensures !r.Refused? && form.skills.None? ==> r.state.skills == user.skills
    ensures !r.Refused? && form.skills.Some? ==> var entries := form.skills.value;
      && r.state.skills.Keys == SubmittedIds(entries)
      && (forall i | 0 <= i < |entries| && LastFor(entries, i) ::
            r.state.skills[entries[i].id] == PivotOf(entries[i]))
    ensures !r.Refused? && !(form.goals.Some? && IsMentee(user)) ==> r.Done? && r.state.goals == user.goals
    ensures r.Crashed? <==>
      ProfileErrors(catalog, form) == {} && form.goals.Some? && IsMentee(user) && !DistinctSkills(form.goals.value)
    ensures !r.Refused? && form.goals.Some? && IsMentee(user) ==>
      var entries := form.goals.value;
      var k := |r.state.goals|;
      && k <= |entries|
      && (k == |entries| <==> r.Done?)
      && (forall i | 0 <= i < k :: r.state.goals[i] == NewGoal(user.id, entries[i]))
      && (k < |entries| ==> exists i | 0 <= i < k :: entries[i].skillId == entries[k].skillId)
  {
    var errors := ProfileErrors(catalog, form);
    if errors != {} then Refused(Invalid(errors))
    else
      assert ExperienceField !in errors && StyleField !in errors;
      var info := WithInfo(user, form);
      var synced := if form.skills.Some? then info.(skills := SkillsData(form.skills.value)) else info;
      if form.goals.Some? && IsMentee(user) then
        ReplaceGoals(synced, form.goals.value)
      else
        Done(synced)
  }

  /** A saved profile keeps skill proficiencies in 1..5. */
  lemma SavedSkillsInDomain(catalog: Catalog, user: User, form: ProfileForm)
    requires UpdateProfile(catalog, user, form).Done?
    requires form.skills.None? ==> forall s | s in user.skills :: 1 <= user.skills[s].proficiency <= 5
    ensures var u := UpdateProfile(catalog, user, form).state;
      forall s | s in u.skills :: 1 <= u.skills[s].proficiency <= 5
  {
    var u := UpdateProfile(catalog, user, form).state;
    if form.skills.Some? {
      var entries := form.skills.value;
      assert SkillErrors(catalog, entries) == {};
      forall s | s in u.skills
        ensures 1 <= u.skills[s].proficiency <= 5
      {
        var e :| e in entries && e.id == s;
        var i :| 0 <= i < |entries| && entries[i] == e;
        var last := LastIndex(entries, i);
        assert ProficiencyField(last) !in SkillErrors(catalog, entries);
      }
    }
  }

  /** Goals saved by a successful update have priorities in 1..3, skills
      from the catalogue and one goal per skill. */
  lemma SavedGoalsInDomain(catalog: Catalog, user: User, form: ProfileForm)
    requires UpdateProfile(catalog, user, form).Done?
    requires form.goals.Some? && IsMentee(user)
    ensures var goals := UpdateProfile(catalog, user, form).state.goals;
      && |goals| == |form.goals.value|
      && (forall i | 0 <= i < |goals| :: 1 <= goals[i].priority <= 3 && goals[i].skillId in catalog)
      && (forall i, j | 0 <= i < j < |goals| :: goals[i].skillId != goals[j].skillId)
  {
    var goals := UpdateProfile(catalog, user, form).state.goals;
    var entries := form.goals.value;
    assert GoalErrors(catalog, entries) == {};
    forall i | 0 <= i < |goals|
      ensures 1 <= goals[i].priority <= 3 && goals[i].skillId in catalog
    {
      assert goals[i] == NewGoal(user.id, entries[i]);
      assert PriorityField(i) !in GoalErrors(catalog, entries);
      assert GoalSkillField(i) !in GoalErrors(catalog, entries);
    }
    forall i, j | 0 <= i < j < |goals|
      ensures goals[i].skillId != goals[j].skillId
    {
      assert goals[i] == NewGoal(user.id, entries[i]) && goals[j] == NewGoal(user.id, entries[j]);
    }
  }

  /** The last entry naming the same skill as entry `i`. */
  lemma LastIndex(entries: seq<SkillEntry>, i: nat) returns (last: nat)
    requires i < |entries|
    ensures i <= last < |entries| && entries[last].id == entries[i].id && LastFor(entries, last)
    decreases |entries| - i
  {
    if LastFor(entries, i) {
      last := i;
    } else {
      var j :| i < j < |entries| && entries[j].id == entries[i].id;
      last := LastIndex(entries, j);
    }
  }
}
