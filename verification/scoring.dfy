/** The compatibility score of `MatchingService`: six sub-scores, each in
    [0, 1], combined with configurable weights into a score capped at 100, and
    the canned reasons derived from the same sub-scores. */
module Scoring {
  import opened Wrappers
  import opened Collections
  import opened Skills
  import opened Goals
  import opened Users
  import opened Capacity

  // ---------------------------------------------------------------- weights

  datatype Weights = Weights(
    skills: real,
    experience: real,
    industry: real,
    communication: real,
    timezone: real,
    availability: real)

  /** The weights a service starts with. */
  const DefaultWeights: Weights := Weights(0.40, 0.20, 0.15, 0.10, 0.10, 0.05)

  function WeightSum(w: Weights): real {
    w.skills + w.experience + w.industry + w.communication + w.timezone + w.availability
  }

  predicate NonNegative(w: Weights) {
    w.skills >= 0.0 && w.experience >= 0.0 && w.industry >= 0.0
    && w.communication >= 0.0 && w.timezone >= 0.0 && w.availability >= 0.0
  }

  /** A total is acceptable unless it lies more than 0.01 away from 1. */
  predicate SumsToOne(total: real) {
    !(total - 1.0 > 0.01 || 1.0 - total > 0.01)
  }

  datatype ConfigError = WeightsMustSumToOne

  /** Replaces the weights when they sum to 1 within 0.01; otherwise fails
      and the caller keeps the weights it had. */
  function SetWeights(proposed: Weights): (r: Result<Weights, ConfigError>)
    ensures r.Success? <==> 0.99 <= WeightSum(proposed) <= 1.01
    ensures r.Success? ==> r.value == proposed
  {
    if SumsToOne(WeightSum(proposed)) then Success(proposed) else Failure(WeightsMustSumToOne)
  }

  /** The defaults pass their own check; a sum of 0.9 is refused and a sum of
      1.005 is tolerated. */
  lemma SetWeightsExamples()
    ensures WeightSum(DefaultWeights) == 1.0 && NonNegative(DefaultWeights)
    ensures SetWeights(DefaultWeights) == Success(DefaultWeights)
    ensures SetWeights(Weights(0.4, 0.2, 0.1, 0.1, 0.05, 0.05)).Failure?
    ensures SetWeights(Weights(0.405, 0.2, 0.15, 0.1, 0.1, 0.05)).Success?
  {
  }

  // ------------------------------------------------------------ skill match

  /** Every pivot of the user lies in the profile form's proficiency domain. */
  ghost predicate ValidProficiencies(u: User) {
    forall s | s in u.skills :: 1 <= u.skills[s].proficiency <= 5
  }

  /** The first (at most) three goals by ascending priority. */
  function TopGoals(goals: seq<MenteeGoal>): (r: seq<MenteeGoal>)
    ensures |r| == Min(3, |goals|)
    ensures PrioritySorted(r)
    ensures multiset(r) <= multiset(goals)
    ensures forall g, h | g in multiset(goals) - multiset(r) && h in r :: h.priority <= g.priority
  {
    var sorted := ByPriority(goals);
    var k := Min(3, |goals|);
    TopGoalsLeaveOutLater(sorted, k);
    sorted[..k]
  }

  lemma TopGoalsLeaveOutLater(sorted: seq<MenteeGoal>, k: nat)
    requires PrioritySorted(sorted) && k <= |sorted|
    ensures multiset(sorted[..k]) <= multiset(sorted)
    ensures forall g, h | g in multiset(sorted) - multiset(sorted[..k]) && h in sorted[..k] ::
      h.priority <= g.priority
  {
    assert sorted == sorted[..k] + sorted[k..];
    assert multiset(sorted) - multiset(sorted[..k]) == multiset(sorted[k..]);
    forall g, h | g in multiset(sorted) - multiset(sorted[..k]) && h in sorted[..k]
      ensures h.priority <= g.priority
    {
      assert g in sorted[k..];
      var j :| k <= j < |sorted| && sorted[j] == g;
      var i :| 0 <= i < k && sorted[i] == h;
    }
  }

  /** Choosing the top goals of the top goals changes nothing, so goals
      beyond the third never influence the skill sub-score. */
  lemma TopGoalsIdempotent(goals: seq<MenteeGoal>)
    ensures TopGoals(TopGoals(goals)) == TopGoals(goals)
  {
    var t := TopGoals(goals);
    assert SortedBy(t, PriorityKey);
    SortSortedIsIdentity(t, PriorityKey);
  }

  /** The categories whose skills earn partial credit for a goal; any
      category not in the table is related only to itself. */
  function RelatedCategories(c: Option<string>): (r: seq<Option<string>>)
    ensures c in r
  {
    if c == Some("Backend Development") then
      [c, Some("Full Stack Development")]
    else if c == Some("Frontend Development") then
      [c, Some("Full Stack Development")]
    else if c == Some("Leadership") then
      [c, Some("Team Management"), Some("Project Management")]
    else
      [c]
  }

  /** Relatedness is not symmetric: a full-stack mentor counts for a backend
      goal, a backend mentor does not count for a full-stack goal. */
  lemma RelatednessIsOneWay()
    ensures Some("Full Stack Development") in RelatedCategories(Some("Backend Development"))
    ensures Some("Backend Development") !in RelatedCategories(Some("Full Stack Development"))
  {
  }

  /** Some skill of the mentor lies in a category related to the goal skill's. */
  predicate HasRelatedSkill(catalog: Catalog, goalSkill: SkillId, mentorSkills: map<SkillId, Pivot>) {
    exists s | s in mentorSkills :: CategoryOf(catalog, s) in RelatedCategories(CategoryOf(catalog, goalSkill))
  }

  /** Relatedness stated independently of the table: a category is related
      to itself, backend and frontend goals accept full stack, and a
      leadership goal accepts team and project management. */
  predicate CategoriesRelated(goal: Option<string>, mentor: Option<string>) {
    || goal == mentor
    || (goal == Some("Backend Development") && mentor == Some("Full Stack Development"))
    || (goal == Some("Frontend Development") && mentor == Some("Full Stack Development"))
    || (goal == Some("Leadership") && mentor == Some("Team Management"))
    || (goal == Some("Leadership") && mentor == Some("Project Management"))
  }

  /** The table relates exactly the category pairs `CategoriesRelated`
      names, so a mentor has a related skill exactly when one of their
      skills' categories is related to the goal skill's. */
  lemma HasRelatedSkillExactly(catalog: Catalog, goalSkill: SkillId, mentorSkills: map<SkillId, Pivot>)
    ensures forall c ::
      c in RelatedCategories(CategoryOf(catalog, goalSkill)) <==> CategoriesRelated(CategoryOf(catalog, goalSkill), c)
    ensures HasRelatedSkill(catalog, goalSkill, mentorSkills) <==>
      exists s | s in mentorSkills :: CategoriesRelated(CategoryOf(catalog, goalSkill), CategoryOf(catalog, s))
  {
  }

  predicate ExactMatch(mentor: User, g: MenteeGoal) {
    g.skillId in mentor.skills
  }

  /** The points one goal earns: 15 plus the proficiency (at most 5) plus 5 if
      primary for an exact skill, else 8 for a related skill, else nothing. */
  function GoalPoints(catalog: Catalog, mentor: User, g: MenteeGoal): (p: int)
    ensures ExactMatch(mentor, g) && ValidProficiencies(mentor) ==> 16 <= p <= 25
    ensures !ExactMatch(mentor, g) ==> p in {0, 8}
    ensures !ExactMatch(mentor, g) ==>
      (p == 8 <==> HasRelatedSkill(catalog, g.skillId, mentor.skills))
  {
    if ExactMatch(mentor, g) then
      var pivot := mentor.skills[g.skillId];
      15 + Min(5, pivot.proficiency) + (if pivot.isPrimary then 5 else 0)
    else if HasRelatedSkill(catalog, g.skillId, mentor.skills) then
      8
    else
      0
  }

  /** The sum of the goals' points, accumulated front to back. */
  function RawPoints(catalog: Catalog, mentor: User, goals: seq<MenteeGoal>): int {
    if |goals| == 0 then 0
    else RawPoints(catalog, mentor, goals[..|goals| - 1]) + GoalPoints(catalog, mentor, goals[|goals| - 1])
  }

  /** How many goals the mentor matches exactly. */
  function ExactMatches(mentor: User, goals: seq<MenteeGoal>): (n: nat)
    ensures n <= |goals|
  {
    if |goals| == 0 then 0
    else ExactMatches(mentor, goals[..|goals| - 1]) + (if ExactMatch(mentor, goals[|goals| - 1]) then 1 else 0)
  }

  /** With proficiencies in range every exact match is worth at least 16 and
      nothing is worth less than 0. */
  lemma {:induction false} RawPointsBounds(catalog: Catalog, mentor: User, goals: seq<MenteeGoal>)
    requires ValidProficiencies(mentor)
    ensures RawPoints(catalog, mentor, goals) >= 16 * ExactMatches(mentor, goals)
    ensures RawPoints(catalog, mentor, goals) <= 25 * |goals|
  {
    if |goals| > 0 {
      RawPointsBounds(catalog, mentor, goals[..|goals| - 1]);
    }
  }

  /** A mentor without skills earns nothing from any goal. */
  lemma {:induction false} NoSkillsNoPoints(catalog: Catalog, mentor: User, goals: seq<MenteeGoal>)
    requires |mentor.skills| == 0
    ensures RawPoints(catalog, mentor, goals) == 0
    ensures ExactMatches(mentor, goals) == 0
  {
    if |goals| > 0 {
      NoSkillsNoPoints(catalog, mentor, goals[..|goals| - 1]);
    }
  }

  /** The skill points of the top goals before normalisation: their points,
      capped at 30 once two or more match exactly, plus 10 when the first
      of them matches exactly. */
  function TopPoints(catalog: Catalog, mentor: User, top: seq<MenteeGoal>): int {
    var raw := RawPoints(catalog, mentor, top);
    var capped := if ExactMatches(mentor, top) >= 2 then Min(raw, 30) else raw;
    capped + (if |top| > 0 && ExactMatch(mentor, top[0]) then 10 else 0)
  }

  /** The skill points of a pair, read on the mentee's top three goals. */
  function SkillPoints(catalog: Catalog, mentor: User, mentee: User): int {
    TopPoints(catalog, mentor, TopGoals(mentee.goals))
  }

  /** The top goals' points capped at 40, divided by 40. */
  function TopRatio(catalog: Catalog, mentor: User, top: seq<MenteeGoal>): (r: real)
    ensures r <= 1.0
    ensures ValidProficiencies(mentor) ==> 0.0 <= r
    ensures r == 1.0 <==> TopPoints(catalog, mentor, top) >= 40
  {
    assert ValidProficiencies(mentor) ==> RawPoints(catalog, mentor, top) >= 16 * ExactMatches(mentor, top) by {
      if ValidProficiencies(mentor) {
        RawPointsBounds(catalog, mentor, top);
      }
    }
    Min(TopPoints(catalog, mentor, top), 40) as real / 40.0
  }

  /** The skill sub-score: the ratio of the mentee's top three goals. */
  function SkillMatch(catalog: Catalog, mentor: User, mentee: User): (r: real)
    ensures r <= 1.0
    ensures ValidProficiencies(mentor) ==> 0.0 <= r
    ensures r == 1.0 <==> SkillPoints(catalog, mentor, mentee) >= 40
  {
    TopRatio(catalog, mentor, TopGoals(mentee.goals))
  }

  /** No goals, or a mentor without skills, give a ratio of 0. */
  lemma NothingToMatch(catalog: Catalog, mentor: User, top: seq<MenteeGoal>)
    requires |top| == 0 || |mentor.skills| == 0
    ensures TopRatio(catalog, mentor, top) == 0.0
  {
    if |mentor.skills| == 0 {
      NoSkillsNoPoints(catalog, mentor, top);
    }
  }

  /** Two or more exact matches saturate the capped subtotal, so the ratio
      is 1 when the first goal is among them and 0.75 when it is not. */
  lemma TwoExactMatches(catalog: Catalog, mentor: User, top: seq<MenteeGoal>)
    requires ValidProficiencies(mentor)
    requires ExactMatches(mentor, top) >= 2
    ensures |top| >= 2
    ensures ExactMatch(mentor, top[0]) ==> TopRatio(catalog, mentor, top) == 1.0
    ensures !ExactMatch(mentor, top[0]) ==> TopRatio(catalog, mentor, top) == 0.75
  {
    RawPointsBounds(catalog, mentor, top);
  }

  /** Only the top three goals matter: dropping the rest leaves the skill
      sub-score as it was. */
  lemma OnlyTopGoalsCount(catalog: Catalog, mentor: User, mentee: User)
    ensures SkillMatch(catalog, mentor, mentee)
      == SkillMatch(catalog, mentor, mentee.(goals := TopGoals(mentee.goals)))
  {
    TopGoalsIdempotent(mentee.goals);
  }

  /** The foreach over the top goals with its two accumulators, as written:
      it computes the declarative sum and count. */
  method TallyGoals(catalog: Catalog, mentor: User, goals: seq<MenteeGoal>)
    returns (score: int, exactMatches: nat)
    ensures score == RawPoints(catalog, mentor, goals)
    ensures exactMatches == ExactMatches(mentor, goals)
  {
    score, exactMatches := 0, 0;
    var i := 0;
    while i < |goals|
      invariant 0 <= i <= |goals|
      invariant score == RawPoints(catalog, mentor, goals[..i])
      invariant exactMatches == ExactMatches(mentor, goals[..i])
    {
      assert goals[..i + 1][..i] == goals[..i];
      var g := goals[i];
      if g.skillId in mentor.skills {
        exactMatches := exactMatches + 1;
        var pivot := mentor.skills[g.skillId];
        var skillScore := 15;
        skillScore := skillScore + Min(5, pivot.proficiency);
        if pivot.isPrimary {
          skillScore := skillScore + 5;
        }
        score := score + skillScore;
      } else if HasRelatedSkill(catalog, g.skillId, mentor.skills) {
        score := score + 8;
      }
      i := i + 1;
    }
    assert goals[..i] == goals;
  }

  // ------------------------------------------------------- experience match

  /** The experience table, indexed by the mentee's level and then the
      mentor's; an unknown (null) level on either side yields 10. */
  function ExperiencePoints(menteeLevel: Option<ExperienceLevel>, mentorLevel: Option<ExperienceLevel>): (p: int)
    ensures p in {10, 15, 20}
  {
    match (menteeLevel, mentorLevel)
    case (Some(Junior), Some(Mid)) => 20
    case (Some(Junior), Some(Senior)) => 15
    case (Some(Junior), Some(Executive)) => 10
    case (Some(Junior), Some(Junior)) => 10
    case (Some(Mid), Some(Senior)) => 20
    case (Some(Mid), Some(Executive)) => 15
    case (Some(Mid), Some(Junior)) => 15
    case (Some(Mid), Some(Mid)) => 10
    case (Some(Senior), Some(Executive)) => 20
    case (Some(Senior), Some(Mid)) => 20
    case (Some(Senior), Some(Junior)) => 15
    case (Some(Senior), Some(Senior)) => 10
    case (Some(Executive), Some(Senior)) => 20
    case (Some(Executive), Some(Mid)) => 15
    case (Some(Executive), Some(Junior)) => 10
    case (Some(Executive), Some(Executive)) => 10
    case _ => 10
  }

  function LevelRank(l: ExperienceLevel): int {
    match l
    case Junior => 0
    case Mid => 1
    case Senior => 2
    case Executive => 3
  }

  /** The table read as a rule over the level gap d = mentor - mentee: the
      same level scores 10, one level up scores 20, one level down scores 20
      for senior and executive mentees but 15 for a mid mentee, a three-level
      gap scores 10 and every other gap 15. */
  lemma ExperienceByLevelGap(mentee: ExperienceLevel, mentor: ExperienceLevel)
    ensures var d := LevelRank(mentor) - LevelRank(mentee);
      ExperiencePoints(Some(mentee), Some(mentor)) ==
        if d == 0 then 10
        else if d == 1 || (d == -1 && LevelRank(mentee) >= 2) then 20
        else if d == 3 || d == -3 then 10
        else 15
  {
  }

  /** The experience sub-score, the matrix points over 20: always one of
      0.5, 0.75 and 1. */
  function ExperienceMatch(mentor: User, mentee: User): (r: real)
    ensures r in {0.5, 0.75, 1.0}
    ensures r == 1.0 <==> ExperiencePoints(mentee.experience, mentor.experience) == 20
    ensures r == 0.75 <==> ExperiencePoints(mentee.experience, mentor.experience) == 15
    ensures r == 0.5 <==> ExperiencePoints(mentee.experience, mentor.experience) == 10
  {
    ExperiencePoints(mentee.experience, mentor.experience) as real / 20.0
  }

  /** Swapping the two levels can change the result. */
  lemma ExperienceIsAsymmetric()
    ensures ExperiencePoints(Some(Junior), Some(Mid)) != ExperiencePoints(Some(Mid), Some(Junior))
  {
  }

  // ----------------------------------------------- industry/function match

  /** Industry and function compared with strict equality (two nulls are
      equal): both equal 1, industry only 10/15, function only 8/15, else 0. */
  function IndustryMatch(mentor: User, mentee: User): (r: real)
    ensures 0.0 <= r <= 1.0
    ensures r == 1.0 <==> mentor.industry == mentee.industry && mentor.jobFunction == mentee.jobFunction
    ensures r == 0.0 <==> mentor.industry != mentee.industry && mentor.jobFunction != mentee.jobFunction
    ensures r in {1.0, 10.0 / 15.0, 8.0 / 15.0, 0.0}
    ensures r == 10.0 / 15.0 <==> mentor.industry == mentee.industry && mentor.jobFunction != mentee.jobFunction
    ensures r == 8.0 / 15.0 <==> mentor.industry != mentee.industry && mentor.jobFunction == mentee.jobFunction
  {
    if mentor.industry == mentee.industry && mentor.jobFunction == mentee.jobFunction then 15.0 / 15.0
    else if mentor.industry == mentee.industry then 10.0 / 15.0
    else if mentor.jobFunction == mentee.jobFunction then 8.0 / 15.0
    else 0.0
  }

  // ------------------------------------------------- communication match

  /** The compatibility table as written: a list of style pairs, with the
      direct/structured pair listed in both orders. */
  const CompatiblePairs: seq<seq<CommunicationStyle>> :=
    [[Direct, Structured], [Supportive, Flexible], [Structured, Direct]]

  /** Both styles occur in one listed pair; a null style is in no pair. */
  predicate InCompatiblePair(a: Option<CommunicationStyle>, b: Option<CommunicationStyle>) {
    exists i | 0 <= i < |CompatiblePairs| ::
      a.Some? && b.Some? && a.value in CompatiblePairs[i] && b.value in CompatiblePairs[i]
  }

  /** The compatibility relation stated independently: the unordered pairs
      {direct, structured} and {supportive, flexible}. */
  predicate CompatibleStyles(a: Option<CommunicationStyle>, b: Option<CommunicationStyle>) {
    (a, b) in {
      (Some(Direct), Some(Structured)), (Some(Structured), Some(Direct)),
      (Some(Supportive), Some(Flexible)), (Some(Flexible), Some(Supportive))}
  }

  /** Identical styles 1, a compatible pair 0.7, anything else 0.2. */
  function CommunicationMatch(mentor: User, mentee: User): (r: real)
    ensures r in {1.0, 0.7, 0.2}
    ensures r == 1.0 <==> mentor.style == mentee.style
    ensures r == 0.7 <==> CompatibleStyles(mentor.style, mentee.style)
  {
    if mentor.style == mentee.style then 10.0 / 10.0
    else
      assert InCompatiblePair(mentor.style, mentee.style) <==> CompatibleStyles(mentor.style, mentee.style) by {
        if CompatibleStyles(mentor.style, mentee.style) {
          var i := if mentor.style.value in {Direct, Structured} then 0 else 1;
          assert mentor.style.value in CompatiblePairs[i] && mentee.style.value in CompatiblePairs[i];
        }
      }
      if InCompatiblePair(mentor.style, mentee.style) then 7.0 / 10.0
      else 2.0 / 10.0
  }

  // ------------------------------------------------------ timezone match

  /** Same zone 1, any other zone 0.5: no offsets are computed. */
  function TimezoneMatch(mentor: User, mentee: User): (r: real)
    ensures r == 1.0 <==> mentor.timeZone == mentee.timeZone
    ensures r != 1.0 ==> r == 0.5
  {
    if mentor.timeZone == mentee.timeZone then 10.0 / 10.0 else 5.0 / 10.0
  }

  /** The industry, communication and timezone sub-scores do not depend on
      which side is the mentor. */
  lemma PairwiseSubScoresSymmetric(a: User, b: User)
    ensures IndustryMatch(a, b) == IndustryMatch(b, a)
    ensures CommunicationMatch(a, b) == CommunicationMatch(b, a)
    ensures TimezoneMatch(a, b) == TimezoneMatch(b, a)
  {
  }

  // -------------------------------------------------- availability match

  /** From the mentor's capacity record as stored: none 0, available 1,
      limited 0.6, full 0. */
  function AvailabilityMatch(capacity: Option<MentorCapacity>): (r: real)
    ensures r in {0.0, 0.6, 1.0}
    ensures r > 0.0 <==> capacity.Some? && capacity.value.status != Full
    ensures r == 1.0 <==> capacity.Some? && capacity.value.status == Available
    ensures r == 0.6 <==> capacity.Some? && capacity.value.status == Limited
  {
    match capacity
    case None => 0.0
    case Some(c) =>
      match c.status
      case Available => 5.0 / 5.0
      case Limited => 3.0 / 5.0
      case Full => 0.0
  }

  // ---------------------------------------------------- compatibility

  /** The six sub-scores of a pair, in the order they are weighted. */
  datatype SubScores = SubScores(
    skills: real,
    experience: real,
    industry: real,
    communication: real,
    timezone: real,
    availability: real)

  function SubScoresOf(catalog: Catalog, mentor: User, mentee: User, capacity: Option<MentorCapacity>): SubScores {
    SubScores(
      SkillMatch(catalog, mentor, mentee),
      ExperienceMatch(mentor, mentee),
      IndustryMatch(mentor, mentee),
      CommunicationMatch(mentor, mentee),
      TimezoneMatch(mentor, mentee),
      AvailabilityMatch(capacity))
  }

  /** A sub-score times its weight. */
  function Scale(score: real, weight: real): real {
    score * weight
  }

  function Weighted(w: Weights, s: SubScores): real {
    Scale(s.skills, w.skills) + Scale(s.experience, w.experience) + Scale(s.industry, w.industry)
    + Scale(s.communication, w.communication) + Scale(s.timezone, w.timezone)
    + Scale(s.availability, w.availability)
  }

  /** Every sub-score lies in [0, 1]. */
  ghost predicate UnitInterval(s: SubScores) {
    0.0 <= s.skills <= 1.0 && 0.0 <= s.experience <= 1.0 && 0.0 <= s.industry <= 1.0
    && 0.0 <= s.communication <= 1.0 && 0.0 <= s.timezone <= 1.0 && 0.0 <= s.availability <= 1.0
  }

  lemma ProductNonNegative(x: real, w: real)
    requires 0.0 <= x && 0.0 <= w
    ensures 0.0 <= x * w
  {
  }

  lemma ScaledByUnit(x: real, w: real)
    requires 0.0 <= x <= 1.0 && 0.0 <= w
    ensures 0.0 <= Scale(x, w) <= w
  {
    ProductNonNegative(x, w);
    assert (1.0 - x) * w == w - x * w;
    ProductNonNegative(1.0 - x, w);
  }

  lemma WeightedBounds(w: Weights, s: SubScores)
    requires NonNegative(w) && UnitInterval(s)
    ensures 0.0 <= Weighted(w, s) <= WeightSum(w)
  {
    ScaledByUnit(s.skills, w.skills);
    ScaledByUnit(s.experience, w.experience);
    ScaledByUnit(s.industry, w.industry);
    ScaledByUnit(s.communication, w.communication);
    ScaledByUnit(s.timezone, w.timezone);
    ScaledByUnit(s.availability, w.availability);
  }

  /** The compatibility score: the weighted sub-scores times 100, capped at
      100. With non-negative weights and in-range proficiencies it lies in
      [0, 100] and never exceeds 100 times the weight total. */
  function CalculateCompatibility(w: Weights, catalog: Catalog, mentor: User, mentee: User,
                                  capacity: Option<MentorCapacity>): (r: real)
    ensures r <= 100.0
    ensures NonNegative(w) && ValidProficiencies(mentor) ==> 0.0 <= r <= 100.0 * WeightSum(w)
  {
    var s := SubScoresOf(catalog, mentor, mentee, capacity);
    assert NonNegative(w) && ValidProficiencies(mentor) ==> 0.0 <= Weighted(w, s) <= WeightSum(w) by {
      if NonNegative(w) && ValidProficiencies(mentor) {
        WeightedBounds(w, s);
      }
    }
    var total := Weighted(w, s) * 100.0;
    if total <= 100.0 then total else 100.0
  }

  /** Under the default weights a pair that is perfect on every factor
      scores exactly 100. */
  lemma PerfectPairScoresHundred(catalog: Catalog, mentor: User, mentee: User, capacity: Option<MentorCapacity>)
    ensures SubScoresOf(catalog, mentor, mentee, capacity) == SubScores(1.0, 1.0, 1.0, 1.0, 1.0, 1.0) ==>
      CalculateCompatibility(DefaultWeights, catalog, mentor, mentee, capacity) == 100.0
  {
  }

  /** Under the default weights a pair with no skill credit reaches the
      shortlist threshold of 60 only when every other factor is perfect. */
  lemma NoSkillCreditCapsAtSixty(catalog: Catalog, mentor: User, mentee: User, capacity: Option<MentorCapacity>)
    requires ValidProficiencies(mentor)
    requires SkillMatch(catalog, mentor, mentee) == 0.0
    ensures CalculateCompatibility(DefaultWeights, catalog, mentor, mentee, capacity) <= 60.0
    ensures CalculateCompatibility(DefaultWeights, catalog, mentor, mentee, capacity) == 60.0
      <==> SubScoresOf(catalog, mentor, mentee, capacity) == SubScores(0.0, 1.0, 1.0, 1.0, 1.0, 1.0)
  {
    var s := SubScoresOf(catalog, mentor, mentee, capacity);
    assert UnitInterval(s);
  }

  // ---------------------------------------------------------- reasons

  /** The five canned reasons, declared in the order they are appended. */
  datatype Reason = StrongSkillAlignment | IdealExperienceMatch | SameIndustryFunction
                  | CompatibleCommunication | SameTimeZone

  /** The phrase shown for a reason. */
  function ReasonText(r: Reason): string {
    match r
    case StrongSkillAlignment => "Strong skill alignment"
    case IdealExperienceMatch => "Ideal experience level match"
    case SameIndustryFunction => "Same industry/function"
    case CompatibleCommunication => "Compatible communication styles"
    case SameTimeZone => "Same or compatible time zones"
  }

  function ReasonRank(r: Reason): nat {
    match r
    case StrongSkillAlignment => 0
    case IdealExperienceMatch => 1
    case SameIndustryFunction => 2
    case CompatibleCommunication => 3
    case SameTimeZone => 4
  }

  /** The reasons appear in declaration order, each at most once. */
  ghost predicate InReasonOrder(r: seq<Reason>) {
    forall i, j | 0 <= i < j < |r| :: ReasonRank(r[i]) < ReasonRank(r[j])
  }

  /** Puts `reason` in front of the later reasons when `c` holds. */
  function WithReason(c: bool, reason: Reason, rest: seq<Reason>): (r: seq<Reason>)
    requires forall x | x in rest :: ReasonRank(reason) < ReasonRank(x)
    requires InReasonOrder(rest)
    ensures InReasonOrder(r)
    ensures reason in r <==> c
    ensures forall x | x != reason :: x in r <==> x in rest
    ensures forall x | x in r :: ReasonRank(reason) <= ReasonRank(x)
  {
    if c then [reason] + rest else rest
  }

  /** The reasons selected by five flags, in fixed order. */
  function Phrases(skills: bool, experience: bool, industry: bool, communication: bool, timezone: bool)
    : (r: seq<Reason>)
    ensures StrongSkillAlignment in r <==> skills
    ensures IdealExperienceMatch in r <==> experience
    ensures SameIndustryFunction in r <==> industry
    ensures CompatibleCommunication in r <==> communication
    ensures SameTimeZone in r <==> timezone
    ensures InReasonOrder(r)
  {
    var e := WithReason(timezone, SameTimeZone, []);
    var d := WithReason(communication, CompatibleCommunication, e);
    var c := WithReason(industry, SameIndustryFunction, d);
    var b := WithReason(experience, IdealExperienceMatch, c);
    WithReason(skills, StrongSkillAlignment, b)
  }

  /** The skill threshold read on the points: above 0.7 means more than 28. */
  lemma SkillThreshold(catalog: Catalog, mentor: User, mentee: User)
    ensures SkillMatch(catalog, mentor, mentee) > 0.7 <==> SkillPoints(catalog, mentor, mentee) > 28
  {
  }

  /** One reason per sub-score above its threshold (skills above 0.7, the
      others above 0.8), in fixed order. Read through the sub-scores' value
      sets, each threshold is an equality test on the profiles. */
  function MatchReasons(catalog: Catalog, mentor: User, mentee: User): (r: seq<Reason>)
    ensures StrongSkillAlignment in r <==> SkillPoints(catalog, mentor, mentee) > 28
    ensures IdealExperienceMatch in r <==> ExperiencePoints(mentee.experience, mentor.experience) == 20
    ensures SameIndustryFunction in r <==>
      mentor.industry == mentee.industry && mentor.jobFunction == mentee.jobFunction
    ensures CompatibleCommunication in r <==> mentor.style == mentee.style
    ensures SameTimeZone in r <==> mentor.timeZone == mentee.timeZone
    ensures InReasonOrder(r)
  {
    SkillThreshold(catalog, mentor, mentee);
    Phrases(
      SkillMatch(catalog, mentor, mentee) > 0.7,
      ExperienceMatch(mentor, mentee) > 0.8,
      IndustryMatch(mentor, mentee) > 0.8,
      CommunicationMatch(mentor, mentee) > 0.8,
      TimezoneMatch(mentor, mentee) > 0.8)
  }
}
