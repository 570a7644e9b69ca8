/** A mentee's learning goal (the `mentee_goals` table): its due-date and
    colour rules and its query scopes. */
module Goals {
  import opened Wrappers
  import opened Collections

  /** The `status` column is an enum of exactly these three values. */
  datatype GoalStatus = Active | Completed | Abandoned

  /** `menteeId` and `skillId` are user and skill ids; `targetDate` is the
      start of the target day on the model's integer time line. */
  datatype MenteeGoal = MenteeGoal(
    menteeId: nat,
    skillId: nat,
    priority: int,
    description: Option<string>,
    targetDate: Option<int>,
    status: GoalStatus,
    progressNotes: Option<string>)

  function GoalStatusName(s: GoalStatus): string {
    match s
    case Active => "active"
    case Completed => "completed"
    case Abandoned => "abandoned"
  }

  /** The `in:active,completed,abandoned` validation rule: accepts exactly the
      names of the three statuses. */
  function ParseGoalStatus(s: string): (r: Option<GoalStatus>)
    ensures r.Some? ==> GoalStatusName(r.value) == s
    ensures forall st: GoalStatus :: s == GoalStatusName(st) ==> r == Some(st)
  {
    if s == "active" then Some(Active)
    else if s == "completed" then Some(Completed)
    else if s == "abandoned" then Some(Abandoned)
    else None
  }

  /** A goal is overdue when it is still active and its target date lies
      strictly before `now`. */
  predicate IsOverdue(g: MenteeGoal, now: int) {
    g.status == Active && g.targetDate.Some? && g.targetDate.value < now
  }

  /** Finished or dropped goals are never overdue, whatever their date. */
  lemma OnlyActiveGoalsAreOverdue(g: MenteeGoal, now: int)
    ensures g.status != Active ==> !IsOverdue(g, now)
    ensures g.targetDate.None? ==> !IsOverdue(g, now)
    ensures IsOverdue(g, now) ==> forall later: int | later >= now :: IsOverdue(g, later)
  {
  }

  /** The colour the UI shows for a goal's status. */
  function StatusColor(g: MenteeGoal, now: int): (c: string)
    ensures c == "green" <==> g.status == Completed
    ensures c == "red" <==> g.status == Abandoned
    ensures c == "orange" <==> IsOverdue(g, now)
    ensures c == "blue" <==> g.status == Active && !IsOverdue(g, now)
  {
    match g.status
    case Completed => "green"
    case Abandoned => "red"
    case Active => if IsOverdue(g, now) then "orange" else "blue"
  }

  /** The `primary` scope: the goals of priority 1. */
  function PrimaryGoals(goals: seq<MenteeGoal>): (r: seq<MenteeGoal>)
    ensures forall g | g in r :: g in goals && g.priority == 1
    ensures forall g | g in goals && g.priority == 1 :: g in r
  {
    Filter(goals, (g: MenteeGoal) => g.priority == 1)
  }

  /** The `active` scope. */
  function ActiveGoals(goals: seq<MenteeGoal>): (r: seq<MenteeGoal>)
    ensures forall g | g in r :: g in goals && g.status == Active
    ensures forall g | g in goals && g.status == Active :: g in r
  {
    Filter(goals, (g: MenteeGoal) => g.status == Active)
  }

  /** The `completed` scope. */
  function CompletedGoals(goals: seq<MenteeGoal>): (r: seq<MenteeGoal>)
    ensures forall g | g in r :: g in goals && g.status == Completed
    ensures forall g | g in goals && g.status == Completed :: g in r
  {
    Filter(goals, (g: MenteeGoal) => g.status == Completed)
  }

  function PriorityKey(g: MenteeGoal): real {
    g.priority as real
  }

  /** The goals in ascending priority order. */
  ghost predicate PrioritySorted(goals: seq<MenteeGoal>) {
    forall i, j | 0 <= i < j < |goals| :: goals[i].priority <= goals[j].priority
  }

  /** The `byPriority` scope: the same goals, ordered by ascending priority
      (ties keep their stored order). */
  function ByPriority(goals: seq<MenteeGoal>): (r: seq<MenteeGoal>)
    ensures PrioritySorted(r)
    ensures multiset(r) == multiset(goals)
  {
    var r := SortBy(goals, PriorityKey);
    assert forall i, j | 0 <= i < j < |r| :: PriorityKey(r[i]) <= PriorityKey(r[j]);
    r
  }
}
