# Mentor matching: a verified model

This project models the core of a mentor/mentee matching platform (a Laravel
application) in Dafny:

- the compatibility engine of `MatchingService`: six sub-scores, their
  weighted sum, the canned match reasons, the weight setter and the top-three
  shortlist;
- the mentor capacity counter (`MentorCapacity`) with its derived
  availability status;
- the match lifecycle (`MentorshipMatch`) and the actions that drive it, both
  the users' actions (`MatchingController`) and the administrator's
  (`AdminController`);
- goals (`MenteeGoal`): the overdue rule, the status colour, the scopes, and
  goal editing (`GoalController`);
- users (`User`): role predicates, scopes and the skill pivots; and saving a
  profile (`ProfileController::update`).

Everything is a pure function over immutable values. The database is one
value, `Database.World`. It holds:

- the skill catalogue;
- the users, each with their skill pivots and goals;
- the capacity records, keyed by mentor id;
- the matches, where a match's id is its position.

Weights and scores are `real`s. Times ("now", "today") are integer
parameters, and nullable timestamps are `Option<int>`.

A controller action returns a `Responses.Outcome`:

- `Done` with the new state;
- `Refused` with the reason, when nothing was written;
- `Crashed` with the state already written, when the code fails half-way.

These failures are modelled:

- a profile that lists the same goal skill twice hits the unique
  (mentee, skill) constraint part-way through re-creating the goals;
- the code of `completeMatch` would fail after marking the match completed
  if the mentor row were gone. The foreign keys of `mentorship_matches`
  cascade deletes, so that cannot happen in a stored state:
  `MatchingController.CompleteMatchFindsMentor` proves that under
  `Database.MatchesReferenceUsers` the row is always found;
- the `mentorCapacity` accessor raises for a user who is not a mentor,
  because it falls through to a relation that was never loaded
  (`Database.CapacityOf`). Scoring reads the mentor side's capacity, so a
  request from a user of neither role, or an administrator's match whose
  mentor side is not a mentor, fails before anything is stored. Accepting
  as a mentor side who is not a mentor fails with nothing written.
  Completing a match whose mentor side is not a mentor fails after the match
  was marked completed.

The invariant `Database.WellFormed` states the schema's unique keys: user
ids, and (mentor_id, mentee_id) pairs on matches. It also states that capacity
records are filed under their own mentor. Every action is proved to
preserve it. The unique
(user_id, skill_id) constraint on pivots holds by construction, because a
user's skills are a map keyed by skill id.

Behaviour of the code that the model keeps as it is:

- `acceptMatch` does not look at the match's status. Accepting an active
  match again counts the mentee twice (`MatchingController.AcceptTwiceCountsTwice`).
- Declining an active match gives no capacity back.
- The administrator's `createMatch` ignores the mentee side's role and the
  mentor's capacity, and `updateMatchStatus` ignores roles altogether.
  `createMatch` can pair a mentor with themself
  (`AdminController.AdminMayPairUserWithThemself`).
- `updateMentorCapacity` stores the status as given. It may lower the maximum
  below the current count (`AdminController.AdminCapacityCanBeInconsistent`).
- The mentee-side shortlist does not exclude the mentee. A user with role
  `both` who is an active mentor with room can be offered themself as mentor
  (`Ranking.MenteeMayBeOfferedThemself`). The mentor-side shortlist runs only
  for role `mentor`, whose users are never in the mentee pool.
- A `both` requester passes `requestMatch`'s role checks only against another
  `both` user.

Modules, one per file: `Wrappers`, `Collections` (stable insertion sort by a
real key, filter, count), `Skills`, `Goals`, `Users`, `Capacity`, `Matches`,
`Scoring`, `Ranking`, `Database`, `Responses`, `MatchingController`,
`AdminController`, `GoalController` and `ProfileController`.

## Model

| member | source | states |
|---|---|---|
| Scoring.SetWeights | app/Services/MatchingService.php:301-310 | the result is a success exactly when the six weights sum to within 0.01 of 1, and a success holds the proposed weights unchanged |
| Scoring.SetWeightsExamples | app/Services/MatchingService.php:14-24 | the default weights are non-negative, sum to 1 and pass the setter's own check; a sum of 0.9 is refused and 1.005 tolerated |
| Scoring.TopGoals | app/Services/MatchingService.php:46 | at most three of the mentee's goals, ordered by ascending priority, and no goal left out has a smaller priority than a goal taken |
| Scoring.TopGoalsIdempotent | app/Services/MatchingService.php:46 | the top three of the top three are the top three |
| Scoring.RelatedCategories | app/Services/MatchingService.php:98-106 | a goal's own category is always among its related categories, including the fallback for unlisted categories |
| Scoring.RelatednessIsOneWay | app/Services/MatchingService.php:99 | a backend goal accepts a full-stack mentor skill but a full-stack goal does not accept a backend one |
| Scoring.HasRelatedSkillExactly | app/Services/MatchingService.php:96-110 | the table relates a goal category to exactly itself, plus full stack for backend and frontend, plus team and project management for leadership; a mentor has a related skill exactly when one of their skills is in such a category |
| Scoring.GoalPoints | app/Services/MatchingService.php:51-73 | an exact skill match earns 16 to 25 points when proficiencies are 1..5; otherwise a goal earns 0 or 8, and 8 exactly when some mentor skill lies in a related category |
| Scoring.ExactMatches | app/Services/MatchingService.php:56-57 | the number of exactly matched goals never exceeds the number of goals |
| Scoring.RawPointsBounds | app/Services/MatchingService.php:51-74 | the goal loop's subtotal is at least 16 per exact match and at most 25 per goal |
| Scoring.NoSkillsNoPoints | app/Services/MatchingService.php:51-74 | a mentor without skills earns no points and no exact matches |
| Scoring.TallyGoals | app/Services/MatchingService.php:42-74 | the loop with its two accumulators computes the declarative subtotal and exact-match count |
| Scoring.TopRatio | app/Services/MatchingService.php:76-93 | the ratio of a list of top goals is at most 1, at least 0 for proficiencies in 1..5, and equals 1 exactly when the capped and bonused points reach 40 |
| Scoring.SkillMatch | app/Services/MatchingService.php:46-93 | the skill sub-score is at most 1, at least 0 for proficiencies in 1..5, and equals 1 exactly when the capped and bonused points reach 40 |
| Scoring.NothingToMatch | app/Services/MatchingService.php:46-93 | an empty goal list (as a mentee without goals has) or a mentor without skills gives a ratio of 0 |
| Scoring.TwoExactMatches | app/Services/MatchingService.php:77-90 | with two or more exact matches among the top goals the ratio is 1.0 if the first-priority goal is matched and 0.75 if not, since the cap of 30 comes before the bonus of 10 |
| Scoring.OnlyTopGoalsCount | app/Services/MatchingService.php:46 | dropping every goal beyond the top three leaves the skill sub-score unchanged |
| Scoring.ExperiencePoints | app/Services/MatchingService.php:118-125 | the experience matrix, with 10 for a missing level, only yields 10, 15 or 20 |
| Scoring.ExperienceByLevelGap | app/Services/MatchingService.php:118-123 | the matrix by level gap: same level 10, one level up 20, one level down 20 for senior and executive mentees, a three-level gap 10, any other gap 15 |
| Scoring.ExperienceMatch | app/Services/MatchingService.php:113-126 | the experience sub-score is the matrix points over 20: 1 exactly when the matrix gives 20, 0.75 exactly when it gives 15, 0.5 exactly when it gives 10 |
| Scoring.ExperienceIsAsymmetric | app/Services/MatchingService.php:119-120 | swapping mentor and mentee levels can change the experience points |
| Scoring.IndustryMatch | app/Services/MatchingService.php:128-138 | the industry sub-score is 1 exactly when industry and function both agree, 10/15 exactly when only the industry agrees, 8/15 exactly when only the function agrees, and 0 exactly when neither does; two missing values count as equal |
| Scoring.CommunicationMatch | app/Services/MatchingService.php:140-159 | the communication sub-score is 1 for identical styles, 0.7 exactly for {direct, structured} or {supportive, flexible} in either order, and 0.2 otherwise |
| Scoring.TimezoneMatch | app/Services/MatchingService.php:161-168 | the time-zone sub-score is 1 for identical zones and 0.5 otherwise |
| Scoring.PairwiseSubScoresSymmetric | app/Services/MatchingService.php:128-168 | the industry, communication and time-zone sub-scores do not depend on which user is the mentor |
| Scoring.AvailabilityMatch | app/Services/MatchingService.php:170-183 | the availability sub-score is 1 exactly for a stored record with status available, 0.6 exactly for one with status limited, and 0 for a full record or none |
| Scoring.WeightedBounds | app/Services/MatchingService.php:28-35 | with non-negative weights and sub-scores in [0, 1] the weighted sum lies between 0 and the sum of the weights |
| Scoring.CalculateCompatibility | app/Services/MatchingService.php:26-38 | the score never exceeds 100; with non-negative weights and proficiencies in 1..5 it is at least 0 and at most 100 times the weight sum |
| Scoring.PerfectPairScoresHundred | app/Services/MatchingService.php:14-37 | under the default weights, perfect sub-scores give exactly 100 |
| Scoring.NoSkillCreditCapsAtSixty | app/Services/MatchingService.php:14-37 | under the default weights a pair with no skill credit scores at most 60, and exactly 60 only when every other sub-score is perfect |
| Scoring.Phrases | app/Services/MatchingService.php:275-298 | each of the five reasons is present exactly when its condition holds, in the fixed order |
| Scoring.SkillThreshold | app/Services/MatchingService.php:278 | the skill sub-score exceeds 0.7 exactly when the skill points exceed 28 |
| Scoring.MatchReasons | app/Services/MatchingService.php:273-299 | each reason appears exactly when its sub-score passes its strict threshold, stated on the profiles (points over 28, matrix 20, same industry and function, same style, same zone), in the fixed order |
| Ranking.MentorCandidates | app/Services/MatchingService.php:196-224 | the mentee-side walk yields exactly the active mentors with a stored capacity record that has room, not already paired with the mentee in that direction, scoring at least 60, each with its score and reasons |
| Ranking.MenteeMayBeOfferedThemself | app/Services/MatchingService.php:196-224 | no id comparison excludes the mentee: an active `both` user with a stored record that has room is eligible as their own mentor, and is a candidate once the score reaches 60 |
| Ranking.MenteeCandidates | app/Services/MatchingService.php:243-259 | the mentor-side walk yields exactly the active mentees not already paired with the mentor in that direction who score at least 60, each with its score and reasons |
| Ranking.Shortlist | app/Services/MatchingService.php:226-228 | the first min(3, n) candidates after a stable sort by descending score: sorted best first, drawn from the candidates, no candidate left out scores higher than one kept, nothing is left out when fewer than three are kept, and for every score the kept candidates with that score are the first candidates with that score, in candidate order |
| Ranking.AllTiedKeepCandidateOrder | app/Services/MatchingService.php:226-228 | when all candidates tie, the shortlist is exactly the first three candidates in candidate order |
| Ranking.GetMatches | app/Services/MatchingService.php:185-194 | at most three suggestions, best first, each at least 60; the mentee path runs for every mentee including `both`, the mentor path otherwise; a mentor without room and a user of neither role get nothing |
| Ranking.MenteeShortlistIsTopThree | app/Services/MatchingService.php:196-229 | an eligible mentor who scores at least 60 but is left out scores no more than every suggestion, and is only left out when all three places are taken |
| Ranking.MentorShortlistIsTopThree | app/Services/MatchingService.php:231-264 | the same for the mentees suggested to a mentor with room |
| Capacity.ParseAvailability | database/migrations/2025_11_08_141126_create_mentorships_table.php:16 | the three availability names parse to their statuses and nothing else parses |
| Capacity.Fresh | app/Models/MentorCapacity.php:27-31 | a new record has a maximum of 2, no mentees and status available, is consistent and has room |
| Capacity.AvailableSlots | app/Models/MentorCapacity.php:50-53 | the free slots are never negative, are positive exactly when there is room, and fill the gap up to the maximum |
| Capacity.StatusFor | app/Models/MentorCapacity.php:76-85 | full exactly when current ≥ max; limited exactly when current < max and 4·current ≥ 3·max; available otherwise |
| Capacity.Refresh | app/Models/MentorCapacity.php:76-87 | the refreshed record agrees with its counts and differs from the input in the status only |
| Capacity.Increment | app/Models/MentorCapacity.php:58-62 | the count rises by exactly one, the maximum stays, and the status is recomputed |
| Capacity.Decrement | app/Models/MentorCapacity.php:67-71 | the count falls by exactly one with no floor, the maximum stays, and the status is recomputed |
| Capacity.IncrementDecrementInverse | app/Models/MentorCapacity.php:58-71 | increment and decrement undo each other up to the status refresh, exactly on a consistent record |
| Capacity.IncrementWithinCapacity | app/Models/MentorCapacity.php:42-62 | taking a mentee while there is room keeps the count within the maximum, fills the record exactly on the last slot, and uses up one slot |
| Capacity.StatusMonotone | app/Models/MentorCapacity.php:76-85 | a higher count never gives a more available status |
| Capacity.DecrementBelowZero | app/Models/MentorCapacity.php:67-71 | decrementing a record with no mentees drives the count negative, with status available |
| Matches.ParseMatchStatus | database/migrations/2025_11_08_141126_create_mentorships_table.php:25 | the five match status names parse to their statuses and nothing else parses |
| Matches.NewMatch | app/Models/MentorshipMatch.php:29-31 | a new match is pending with neither timestamp |
| Matches.Activate | app/Models/MentorshipMatch.php:71-77 | activation sets the status to active and keeps an existing matched-at, stamping it only when absent; nothing else changes |
| Matches.ActivateIdempotent | app/Models/MentorshipMatch.php:71-77 | activating twice, at any two times, equals activating once |
| Matches.Complete | app/Models/MentorshipMatch.php:82-88 | completion sets the status to completed and always restamps completed-at; nothing else changes |
| Matches.LifecycleKeepsMatchedAt | app/Models/MentorshipMatch.php:71-104 | activation and completion never overwrite a matched-at; an activated match is active and not pending, a completed one neither |
| Matches.ActiveMatches | app/Models/MentorshipMatch.php:47-50 | the active scope selects exactly the matches whose status is active |
| Matches.PendingMatches | app/Models/MentorshipMatch.php:55-58 | the pending scope selects exactly the pending matches |
| Matches.CompletedMatches | app/Models/MentorshipMatch.php:63-66 | the completed scope selects exactly the completed matches |
| Matches.AppendKeepsUnique | database/migrations/2025_11_08_141126_create_mentorships_table.php:30 | adding a match whose pair is not stored keeps (mentor, mentee) pairs unique |
| Matches.ReplaceKeepsUnique | database/migrations/2025_11_08_141126_create_mentorships_table.php:30 | rewriting a match without changing its pair keeps pairs unique |
| Goals.ParseGoalStatus | database/migrations/2025_11_10_172357_add_target_date_and_status_to_mentee_goals_table.php:16 | the three goal status names parse to their statuses and nothing else parses |
| Goals.OnlyActiveGoalsAreOverdue | app/Models/MenteeGoal.php:76-81 | a goal that is not active, or has no target date, is never overdue; an overdue goal stays overdue later |
| Goals.StatusColor | app/Models/MenteeGoal.php:86-94 | green exactly for completed, red exactly for abandoned, orange exactly when overdue, blue exactly for an active goal that is not overdue |
| Goals.PrimaryGoals | app/Models/MenteeGoal.php:44-47 | the primary scope selects exactly the goals of priority 1 |
| Goals.ActiveGoals | app/Models/MenteeGoal.php:60-63 | the active scope selects exactly the active goals |
| Goals.CompletedGoals | app/Models/MenteeGoal.php:68-71 | the completed scope selects exactly the completed goals |
| Goals.ByPriority | app/Models/MenteeGoal.php:52-55 | ordering by priority is ascending and keeps every goal exactly once |
| Users.RolePredicates | app/Models/User.php:125-136 | `both` is exactly the role that is mentor and mentee, `admin` exactly the role that is neither, and every other role exactly one |
| Users.Mentors | app/Models/User.php:107-110 | the mentors scope selects exactly the users with role mentor or both |
| Users.Mentees | app/Models/User.php:112-115 | the mentees scope selects exactly the users with role mentee or both |
| Users.ActiveUsers | app/Models/User.php:117-120 | the active scope selects exactly the active users |
| Users.AddSkill | app/Models/User.php:173-181 | adding a skill upserts that one pivot with the given proficiency and primary flag and leaves every other skill and column untouched |
| Users.AddSkillWithDefaults | app/Models/User.php:173-181 | adding a skill without pivot data stores proficiency 3 and not primary, so the skill is neither primary nor expert; other skills are untouched |
| Users.RemoveSkill | app/Models/User.php:186-189 | removing a skill detaches only that skill |
| Users.RemoveUndoesAdd | app/Models/User.php:173-189 | removing a skill just added gives what removing it alone gives, and the original user when it was new |
| Users.PrimarySkills | app/Models/User.php:157-160 | the primary skills are exactly the pivots flagged primary |
| Users.ExpertSkills | app/Models/User.php:165-168 | the expert skills are exactly the pivots with proficiency at least 4 |
| Users.SkillEditsAndDerivedRelations | app/Models/User.php:157-189 | adding or removing a skill changes the primary and expert sets only at that skill |
| Skills.CategoryOf | app/Services/MatchingService.php:105 | a skill's category is the catalogue's entry for it; an uncatalogued skill has none |
| Database.FindUser | app/Http/Controllers/AdminController.php:175-176 | the user found has the id asked for; none is found only when no user has it |
| Database.FindUserUnique | app/Http/Controllers/AdminController.php:175-176 | with unique user ids, looking up a stored user's id finds that user |
| Database.StoredCapacity | app/Services/MatchingService.php:198-206 | the eager-loaded capacity is the stored record for that mentor, or nothing |
| Database.CapacityOf | app/Models/User.php:194-205 | the accessor gives a record exactly for a mentor-role user: the stored one, or else a fresh default record; for anyone else it fails, whether or not a record is stored |
| MatchingController.RoleRefusal | app/Http/Controllers/MatchingController.php:38-44 | a mentee asking for a non-mentor is refused first, then a mentor asking for a non-mentee; otherwise the roles pass |
| MatchingController.RequestMatchAsWritten | app/Http/Controllers/MatchingController.php:33-70 | the request as coded: refused on the role checks or when the role-chosen pair exists; otherwise it fails with nothing stored exactly when the scored mentor is not a mentor, and else appends a pending match for the role-chosen ids, scored mentor first, with pairs staying unique |
| MatchingController.BothRequesterMatchesThemself | app/Http/Controllers/MatchingController.php:57-67 | a `both` requester targeting another `both` user files a match with themself on both sides, scored for the target as mentor |
| MatchingController.RequestMatch | app/Http/Controllers/MatchingController.php:33-70 | the request with the row filed for the scored pair: the same refusals, and the same failure with nothing stored when the scored mentor is not a mentor; on success exactly one pending match with no timestamps is appended, its two sides are the requester and the target (mentee requester as mentee), its score is the scored pair's, and pairs stay unique |
| MatchingController.RequestVersionsAgreeOnPlainRoles | app/Http/Controllers/MatchingController.php:47-67 | for a plain mentor or mentee requester the corrected and the coded request behave identically |
| MatchingController.OnlyAdminRequestsCrash | app/Http/Controllers/MatchingController.php:37-59 | past the role checks, both versions of the request fail exactly for a requester of neither role whose row would be new, since the role checks make the target a mentor whenever the requester is a mentee |
| MatchingController.AcceptMatch | app/Http/Controllers/MatchingController.php:72-96 | refused for a missing match, a non-participant, the mentee side, and a mentor without room; a mentor side who is not a mentor fails with nothing written; otherwise the match is activated and the mentor's record incremented, staying within its maximum, with nothing else changed |
| MatchingController.AcceptTwiceCountsTwice | app/Http/Controllers/MatchingController.php:86-93 | accepting an already accepted match again succeeds while room is left and counts the mentee a second time |
| MatchingController.DeclineMatch | app/Http/Controllers/MatchingController.php:98-110 | refused for a missing match or a non-participant; otherwise only the status becomes discontinued |
| MatchingController.CompleteMatch | app/Http/Controllers/MatchingController.php:112-129 | refused for a missing match or a non-participant; otherwise the match is completed; a missing mentor row (unreachable under the foreign keys) or a mentor side who is not a mentor then fails with only that write made; else the mentor's record is decremented |
| MatchingController.CompleteMatchFindsMentor | database/migrations/2025_11_08_141126_create_mentorships_table.php:20-23 | when both sides of every match name a stored user, as the cascading foreign keys keep them, completing finds the mentor row, and it fails exactly when that mentor-side user is not a mentor |
| MatchingController.AcceptThenCompleteRestoresCapacity | app/Http/Controllers/MatchingController.php:86-126 | accepting and then completing a match returns a consistent mentor record to exactly where it started |
| AdminController.CreateStatus | app/Http/Controllers/AdminController.php:162 | a match may be created only as pending or active |
| AdminController.MatchFormErrors | app/Http/Controllers/AdminController.php:159-163 | the failing fields are exactly: a mentor id or mentee id that names no user, a status other than pending or active |
| AdminController.CreateMatch | app/Http/Controllers/AdminController.php:157-188 | refused with the failing fields, then for an existing pair; then fails with nothing stored exactly when the mentor side is not a mentor; otherwise exactly one match is appended for the given ids and status, with matched-at stamped exactly when it is active, no completed-at, scored mentor first, and pairs stay unique |
| AdminController.AdminMayPairUserWithThemself | app/Http/Controllers/AdminController.php:157-188 | the administrator can create a match with the same mentor on both sides |
| AdminController.SetStatus | app/Http/Controllers/AdminController.php:196-206 | the new status is set; matched-at changes exactly when activating without one, completed-at exactly when completing without one, each to now; nothing else changes |
| AdminController.SetStatusAgainstLifecycle | app/Http/Controllers/AdminController.php:196-206 | the administrator's activation equals the model's activation; their completion equals the model's only on a match never completed; setting a status twice changes nothing more |
| AdminController.UpdateMatchStatus | app/Http/Controllers/AdminController.php:190-209 | refused for a missing match or a status outside the five; otherwise only that match changes, by the status rule |
| AdminController.WeightErrors | app/Http/Controllers/AdminController.php:221-228 | a weight field fails exactly when its value lies outside [0, 1] |
| AdminController.UpdateAlgorithmWeights | app/Http/Controllers/AdminController.php:219-241 | refused with the failing fields, then when the sum is more than 0.01 from 1; otherwise the service holds exactly the proposed weights |
| AdminController.AcceptedWeightsBoundScores | app/Http/Controllers/AdminController.php:219-241 | weights the administrator can set keep every compatibility score within [0, 100] |
| AdminController.CapacityErrors | app/Http/Controllers/AdminController.php:144-147 | the failing fields are exactly a maximum outside 1..10 and an unknown availability name |
| AdminController.UpdateMentorCapacity | app/Http/Controllers/AdminController.php:138-155 | refused for a non-mentor, then with the failing fields; otherwise that mentor's record takes the given maximum and status, keeps its count (0 when created), and no other record changes |
| AdminController.AdminCapacityCanBeInconsistent | app/Http/Controllers/AdminController.php:149-152 | an updated record can disagree with its counts (a mentor with no mentees marked full, a record with no room marked available); the next count change recomputes the status |
| AdminController.Involving | app/Http/Controllers/AdminController.php:95-98 | exactly the matches in which the user is mentor or mentee |
| AdminController.MatchStatsFor | app/Http/Controllers/AdminController.php:103-108 | the total counts the user's matches, the other three count the user's matches under each status scope, each is at most the total and so is their sum |
| GoalController.EditErrors | app/Http/Controllers/GoalController.php:21-25 | a present field fails exactly when the status is unknown, the notes exceed 1000 characters, or the target date is not after today |
| GoalController.UpdateGoal | app/Http/Controllers/GoalController.php:12-39 | forbidden exactly when the user neither owns the goal nor mentors its mentee in an active match, checked before validation; otherwise refused with the failing fields, or exactly the present fields are written |
| GoalController.GoalEditConsequences | app/Http/Controllers/GoalController.php:17-27 | an empty edit leaves the goal unchanged; after an accepted target date the goal is not overdue at any moment up to that date, today included; a mentor with no active match with the mentee may not edit |
| ProfileController.ParseExperience | app/Http/Controllers/ProfileController.php:105 | the four experience names parse to their levels and nothing else parses |
| ProfileController.ParseStyle | app/Http/Controllers/ProfileController.php:106 | the five style names parse to their styles and nothing else parses |
| ProfileController.InfoErrors | app/Http/Controllers/ProfileController.php:101-107 | a profile field fails exactly when the name is blank or over 255 characters, industry or function over 100, the time zone over 50, the level unknown, or a given style unknown |
| ProfileController.SkillErrors | app/Http/Controllers/ProfileController.php:109-110 | a skill entry fails exactly when its id is not catalogued or its proficiency lies outside 1..5 |
| ProfileController.GoalErrors | app/Http/Controllers/ProfileController.php:113-114 | a goal entry fails exactly when its skill is not catalogued or its priority lies outside 1..3 |
| ProfileController.ProfileErrors | app/Http/Controllers/ProfileController.php:100-116 | the form is valid exactly when no profile field, skill entry or goal entry fails |
| ProfileController.SkillsData | app/Http/Controllers/ProfileController.php:130-137 | the sync map holds exactly the submitted skill ids, each with the pivot of its last entry and primary defaulting to false |
| ProfileController.LaterDuplicateWins | app/Http/Controllers/ProfileController.php:132-137 | a skill listed twice keeps the second entry's pivot |
| ProfileController.NewGoal | app/Http/Controllers/ProfileController.php:145 | a goal created from the form is active, with the entry's skill, priority and description and no target date or notes |
| ProfileController.WithInfo | app/Http/Controllers/ProfileController.php:118-127 | the profile columns take the submitted values, with the stored experience level and style naming the submitted strings; id, role, active flag, skills and goals are untouched |
| ProfileController.FirstRepeat | database/migrations/2025_11_08_141122_create_skills_table.php:37 | the entries before the returned position name distinct skills, and the entry at it repeats an earlier skill |
| ProfileController.ReplaceGoals | app/Http/Controllers/ProfileController.php:141-147 | only the goals change; the replacement fails exactly when two entries name the same skill, keeping the goals created from the entries before the first repeat, and otherwise stores one new active goal per entry, in order |
| ProfileController.UpdateProfile | app/Http/Controllers/ProfileController.php:96-151 | refused with exactly the failing fields; otherwise the profile columns take the form's values, submitted skills replace the pivots, and submitted goals of a mentee replace the goals, failing after the goals before the first repeated skill |
| ProfileController.SavedSkillsInDomain | app/Http/Controllers/ProfileController.php:110 | after a successful save every proficiency lies in 1..5 |
| ProfileController.SavedGoalsInDomain | app/Http/Controllers/ProfileController.php:113-147 | goals saved by a successful update are one per entry, with priorities 1..3, catalogued skills and one goal per skill |

## Left out

- HTTP, sessions, redirects, flash messages and page rendering are left out. Each action returns an `Outcome` instead.
- `now()`, `today` and `isPast` are not modelled. Times are integer parameters; dates and timestamps share one integer axis.
- PHP floats are not modelled. Weights, sub-scores and scores are exact `real`s, including the 0.75 ratio and the 0.01 tolerance.
- The `compatibility_score` column is an integer, so the database rounds stored scores. The model stores the real score.
- Row order is not modelled: the candidate pool follows the order of `World.users`, and goals tied on priority keep their stored order. SQL leaves both orders unspecified. The sort is stable, like PHP's `usort`.
- Database.CapacityOf: the accessor creates and saves a default record when it reads a mentor without one. The model persists that record only in accept and complete, which write it anyway. The scoring paths and the shortlist do not persist it.
- Database.CapacityOf: the accessor returns a relation already loaded on the user object as it is, and the model does not track loaded relations. The one eager-loaded read of the shortlist, on the mentee path, is `Database.StoredCapacity`. The administrator's user detail page loads the relation before asking for suggestions, and that page is outside this model. For a mentor-role user without a stored record the page gets no suggestions, because the loaded relation is null, while `Ranking.GetMatches` scores with a default record.
- Scoring.CalculateCompatibility: the lower bound of 0 assumes pivot proficiencies in 1..5. That is the range the profile form and the seeder write. `User::addSkill` (and `Users.AddSkill`) does not check it, and no PHP code in the application calls it; a pivot written through it with a proficiency below 1 can push the score below 0.
- Scoring.SkillMatch: the lower bound of 0 assumes proficiencies in 1..5, which only the profile form and the seeder enforce.
- Scoring.TopRatio: the lower bound of 0 assumes proficiencies in 1..5, which only the profile form and the seeder enforce.
- Scoring.SetWeights: the model's `Weights` has exactly the six keys. The service accepts any array, but its only caller passes exactly these six.
- Scoring.HasRelatedSkill: the category lookup uses loose comparison, so an empty category matches a missing one and numeric-looking category names compare as numbers. The model compares categories strictly.
- AdminController.UpdateAlgorithmWeights: the weights are set on the service instance of that request and are not saved anywhere. The result is what that instance holds.
- ProfileController.UpdateProfile: name and bio are validated but not stored, since nothing in the core reads them. The nullable fields are always present in the form, so a field left out of the request is treated as null rather than unchanged.
- Type checks in validation (`integer`, `numeric`, `date`, `boolean`, `array`) hold by construction of the typed inputs.
- Route model binding for users is left out: actions take `User` values. A match id beyond the table is `NotFound`.
- The status colour's `gray` fallback cannot happen, because the goal status column only admits the three statuses.
- These actions are outside this model: the admin dashboard, users index, user detail (apart from its match statistics), `updateUser`, `deleteMatch`, and match `index`/`activities`. `index` is a pass-through to `Ranking.GetMatches`.
- The routes, the admin middleware, registration and login are left out. They are framework plumbing.

## Findings

| source | as written | input that shows it | evidently intended | confidence | as-written member | corrected member |
|---|---|---|---|---|---|---|
| app/Http/Controllers/MatchingController.php:47-67 | mentor_id and mentee_id are each chosen from the requester's roles alone, so a requester with role `both` fills both columns with their own id | requester id 1 with role `both` requests user 2 with role `both`, and no (1, 1) match exists: a pending match (1, 1) is stored, scored for mentor 2 and mentee 1 | the requester and the target are the two sides of the match, in the order the score was computed | not executed | MatchingController.RequestMatchAsWritten, with the counterexample MatchingController.BothRequesterMatchesThemself | MatchingController.RequestMatch |
