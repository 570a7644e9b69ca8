/** Editing a goal (`GoalController::update`): who may edit it and which
    edits are accepted. */
module GoalController {
  import opened Wrappers
  import opened Goals
  import opened Users
  import opened Matches
  import opened Responses

  datatype GoalField = StatusField | NotesField | TargetDateField

  datatype Refusal = Forbidden | Invalid(fields: set<GoalField>)

  /** The fields the request carries; an absent field is left alone. */
  datatype GoalEdit = GoalEdit(status: Option<string>, progressNotes: Option<string>, targetDate: Option<int>)

  const MaxNotesLength: nat := 1000

  /** The user is the mentor of an active match with the goal's mentee. */
  predicate IsMentorForGoal(matches: seq<MentorshipMatch>, user: User, goal: MenteeGoal) {
    exists i | 0 <= i < |matches| ::
      matches[i].mentorId == user.id && matches[i].menteeId == goal.menteeId && IsActive(matches[i])
  }

  /** Who may edit: the goal's own mentee, or a mentor actively matched with
      that mentee. */
  predicate MayEdit(matches: seq<MentorshipMatch>, user: User, goal: MenteeGoal) {
    goal.menteeId == user.id || IsMentorForGoal(matches, user, goal)
  }

  /** The present fields that fail validation: an unknown status, notes over
      1000 characters, a target date that is not after today. */
  function EditErrors(edit: GoalEdit, today: int): (e: set<GoalField>)
    ensures StatusField in e <==> edit.status.Some? && ParseGoalStatus(edit.status.value).None?
    ensures NotesField in e <==> edit.progressNotes.Some? && |edit.progressNotes.value| > MaxNotesLength
    ensures TargetDateField in e <==> edit.targetDate.Some? && edit.targetDate.value <= today
  {
    (if edit.status.Some? && ParseGoalStatus(edit.status.value).None? then {StatusField} else {})
    + (if edit.progressNotes.Some? && |edit.progressNotes.value| > MaxNotesLength then {NotesField} else {})
    + (if edit.targetDate.Some? && edit.targetDate.value <= today then {TargetDateField} else {})
  }

  /** `update`: authorisation before validation; then exactly the present
      fields are written. */
  function UpdateGoal(matches: seq<MentorshipMatch>, user: User, goal: MenteeGoal, edit: GoalEdit,
                      today: int): (r: Outcome<MenteeGoal, Refusal>)
    ensures r == Refused(Forbidden) <==> !MayEdit(matches, user, goal)
    ensures r.Refused? && r.reason.Invalid? <==> MayEdit(matches, user, goal) && EditErrors(edit, today) != {}
    ensures r.Refused? && r.reason.Invalid? ==> r.reason.fields == EditErrors(edit, today)
    ensures r.Done? || r.Refused?
    ensures r.Done? ==>
      && r.state == goal.(status := r.state.status, progressNotes := r.state.progressNotes,
                          targetDate := r.state.targetDate)
      && (edit.status.Some? ==> GoalStatusName(r.state.status) == edit.status.value)
      && (edit.status.None? ==> r.state.status == goal.status)
      && (edit.progressNotes.Some? ==>
            r.state.progressNotes == edit.progressNotes && |r.state.progressNotes.value| <= MaxNotesLength)
      && (edit.progressNotes.None? ==> r.state.progressNotes == goal.progressNotes)
      && (edit.targetDate.Some? ==> r.state.targetDate == edit.targetDate && r.state.targetDate.value > today)
      && (edit.targetDate.None? ==> r.state.targetDate == goal.targetDate)
  {
    if !MayEdit(matches, user, goal) then Refused(Forbidden)
    else
      var errors := EditErrors(edit, today);
      if errors != {} then Refused(Invalid(errors))
      else
        Done(goal.(
          status := if edit.status.Some? then ParseGoalStatus(edit.status.value).value else goal.status,
          progressNotes := if edit.progressNotes.Some? then edit.progressNotes else goal.progressNotes,
          targetDate := if edit.targetDate.Some? then edit.targetDate else goal.targetDate))
  }

  /** An edit with no fields leaves the goal as it was; an accepted new
      target date makes the goal not overdue at any moment up to that date,
      today included; a mentor whose match is not active may not edit. */
  lemma GoalEditConsequences(matches: seq<MentorshipMatch>, user: User, goal: MenteeGoal, edit: GoalEdit, today: int)
    ensures MayEdit(matches, user, goal) ==>
      UpdateGoal(matches, user, goal, GoalEdit(None, None, None), today) == Done(goal)
    ensures UpdateGoal(matches, user, goal, edit, today).Done? && edit.targetDate.Some? ==>
      && !IsOverdue(UpdateGoal(matches, user, goal, edit, today).state, today)
      && forall now: int | now <= edit.targetDate.value ::
           !IsOverdue(UpdateGoal(matches, user, goal, edit, today).state, now)
    ensures goal.menteeId != user.id && (forall m | m in matches && m.mentorId == user.id && m.menteeId == goal.menteeId :: !IsActive(m)) ==>
      UpdateGoal(matches, user, goal, edit, today) == Refused(Forbidden)
  {
    assert EditErrors(GoalEdit(None, None, None), today) == {};
  }
}
