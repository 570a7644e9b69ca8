/** The administrator's actions on matches, weights and capacity
    (`AdminController`), and the per-user match statistics. */
module AdminController {
  import opened Wrappers
  import opened Collections
  import opened Users
  import opened Capacity
  import opened Matches
  import opened Database
  import opened Scoring
  import opened Responses

  datatype MatchField = MentorField | MenteeField | StatusField

  datatype WeightField = SkillsWeight | ExperienceWeight | IndustryWeight
                       | CommunicationWeight | TimezoneWeight | AvailabilityWeight

  datatype CapacityField = MaxMenteesField | AvailabilityField

  datatype Refusal =
    | NotFound                                    // no match with that id
    | InvalidMatch(matchFields: set<MatchField>)  // the create-match form failed validation
    | MatchExists                                 // the (mentor, mentee) pair is already stored
    | InvalidStatus                               // not one of the five match statuses
    | InvalidWeights(weightFields: set<WeightField>)
    | WeightsDoNotSumToOne
    | NotAMentor
    | InvalidCapacity(capacityFields: set<CapacityField>)

  // -------------------------------------------------------- create match

  datatype MatchForm = MatchForm(mentorId: nat, menteeId: nat, status: string)

  /** The statuses a match may be created with. */
  function CreateStatus(s: string): (r: Option<MatchStatus>)
    ensures r.Some? <==> s == "pending" || s == "active"
    ensures r.Some? ==> r.value in {Pending, Active} && MatchStatusName(r.value) == s
  {
    match ParseMatchStatus(s)
    case Some(Pending) => Some(Pending)
    case Some(Active) => Some(Active)
    case _ => None
  }

  /** The fields of the form that fail validation: both ids must name a
      user and the status must be pending or active. */
  function MatchFormErrors(world: World, form: MatchForm): (e: set<MatchField>)
    ensures MentorField in e <==> forall u | u in world.users :: u.id != form.mentorId
    ensures MenteeField in e <==> forall u | u in world.users :: u.id != form.menteeId
    ensures StatusField in e <==> CreateStatus(form.status).None?
  {
    (if FindUser(world.users, form.mentorId).None? then {MentorField} else {})
    + (if FindUser(world.users, form.menteeId).None? then {MenteeField} else {})
    + (if CreateStatus(form.status).None? then {StatusField} else {})
  }

  /** `createMatch`: files two existing users as a pair whatever the mentee
      side's role, the mentor's capacity or whether they are the same user;
      an active match is stamped with the time it was created. Scoring reads
      the mentor side's capacity first, which fails for a user who is not a
      mentor, so such a form fails with nothing stored. */
  function CreateMatch(w: Weights, world: World, form: MatchForm, now: int): (r: Outcome<World, Refusal>)
    ensures r.Refused? && r.reason.InvalidMatch? <==> MatchFormErrors(world, form) != {}
    ensures r.Refused? && r.reason.InvalidMatch? ==> r.reason.matchFields == MatchFormErrors(world, form)
    ensures r == Refused(MatchExists) <==>
      MatchFormErrors(world, form) == {} && PairExists(world.matches, form.mentorId, form.menteeId)
    ensures r.Crashed? <==>
      && MatchFormErrors(world, form) == {}
      && !PairExists(world.matches, form.mentorId, form.menteeId)
      && !IsMentor(FindUser(world.users, form.mentorId).value)
    ensures r.Crashed? ==> r.state == world
    ensures r.Done? ==>
      && |r.state.matches| == |world.matches| + 1
      && r.state.matches[..|world.matches|] == world.matches
      && r.state == world.(matches := r.state.matches)
    ensures r.Done? ==> var m := r.state.matches[|world.matches|];
      && m.mentorId == form.mentorId && m.menteeId == form.menteeId
      && MatchStatusName(m.status) == form.status
      && (m.matchedAt.Some? <==> m.status == Active)
      && (m.matchedAt.Some? ==> m.matchedAt == Some(now))
      && m.completedAt.None?
      && m.score == CalculateCompatibility(w, world.catalog,
           FindUser(world.users, form.mentorId).value, FindUser(world.users, form.menteeId).value,
           CapacityOf(world, FindUser(world.users, form.mentorId).value))
    ensures WellFormed(world) && r.Done? ==> WellFormed(r.state)
  {
    var errors := MatchFormErrors(world, form);
    if errors != {} then Refused(InvalidMatch(errors))
    else if PairExists(world.matches, form.mentorId, form.menteeId) then Refused(MatchExists)
    else
      var mentor := FindUser(world.users, form.mentorId).value;
      var mentee := FindUser(world.users, form.menteeId).value;
      if CapacityOf(world, mentor).None? then Crashed(world)
      else
        var status := CreateStatus(form.status).value;
        var m := MentorshipMatch(
          form.mentorId, form.menteeId,
          CalculateCompatibility(w, world.catalog, mentor, mentee, CapacityOf(world, mentor)),
          status, if status == Active then Some(now) else None, None);
        assert UniquePairs(world.matches) ==> UniquePairs(world.matches + [m]) by {
          if UniquePairs(world.matches) {
            AppendKeepsUnique(world.matches, m);
          }
        }
        assert (world.matches + [m])[..|world.matches|] == world.matches;
        Done(world.(matches := world.matches + [m]))
  }

  /** Nothing stops an administrator from pairing a mentor with themself. */
  lemma AdminMayPairUserWithThemself(w: Weights, world: World, u: User, now: int)
    requires u in world.users && IsMentor(u) && !PairExists(world.matches, u.id, u.id)
    requires WellFormed(world)
    ensures var r := CreateMatch(w, world, MatchForm(u.id, u.id, "active"), now);
      r.Done? && r.state.matches[|world.matches|].mentorId == r.state.matches[|world.matches|].menteeId
  {
    var form := MatchForm(u.id, u.id, "active");
    assert CreateStatus(form.status) == Some(Active);
    assert MatchFormErrors(world, form) == {};
    FindUserUnique(world.users, u);
  }

  // -------------------------------------------------- update match status

  /** The status change of `updateMatchStatus`: `matchedAt` is stamped only
      when activating a match that never had one, `completedAt` only when
      completing a match that never had one. */
  function SetStatus(m: MentorshipMatch, status: MatchStatus, now: int): (r: MentorshipMatch)
    ensures r.status == status
    ensures KeepsMatchedAt(m, r)
    ensures m.completedAt.Some? ==> r.completedAt == m.completedAt
    ensures r.matchedAt != m.matchedAt <==> status == Active && m.matchedAt.None?
    ensures r.completedAt != m.completedAt <==> status == Completed && m.completedAt.None?
    ensures r.matchedAt != m.matchedAt ==> r.matchedAt == Some(now)
    ensures r.completedAt != m.completedAt ==> r.completedAt == Some(now)
    ensures r.(status := m.status, matchedAt := m.matchedAt, completedAt := m.completedAt) == m
  {
    m.(status := status,
       matchedAt := if status == Active && m.matchedAt.None? then Some(now) else m.matchedAt,
       completedAt := if status == Completed && m.completedAt.None? then Some(now) else m.completedAt)
  }

  /** The administrator's activation agrees with the model's `activate`; the
      administrator's completion agrees with the model's `complete` only on
      a match that was never completed, since `complete` restamps. Setting
      the same status twice changes nothing the second time. */
  lemma SetStatusAgainstLifecycle(m: MentorshipMatch, status: MatchStatus, now: int, later: int)
    ensures SetStatus(m, Active, now) == Activate(m, now)
    ensures SetStatus(m, Completed, now) == Complete(m, now) <==>
      m.completedAt.None? || m.completedAt == Some(now)
    ensures SetStatus(SetStatus(m, status, now), status, later) == SetStatus(m, status, now)
  {
  }

  /** `updateMatchStatus`: any of the five statuses from any status. */
  function UpdateMatchStatus(world: World, id: nat, status: string, now: int): (r: Outcome<World, Refusal>)
    ensures r == Refused(NotFound) <==> id >= |world.matches|
    ensures r == Refused(InvalidStatus) <==> id < |world.matches| && ParseMatchStatus(status).None?
    ensures r.Done? || r.Refused?
    ensures r.Done? ==>
      && r.state.matches == world.matches[id := SetStatus(world.matches[id], ParseMatchStatus(status).value, now)]
      && r.state == world.(matches := r.state.matches)
      && MatchStatusName(r.state.matches[id].status) == status
    ensures WellFormed(world) && r.Done? ==> WellFormed(r.state)
  {
    if id >= |world.matches| then Refused(NotFound)
    else match ParseMatchStatus(status)
      case None => Refused(InvalidStatus)
      case Some(s) =>
        var m := SetStatus(world.matches[id], s, now);
        assert UniquePairs(world.matches) ==> UniquePairs(world.matches[id := m]) by {
          if UniquePairs(world.matches) {
            ReplaceKeepsUnique(world.matches, id, m);
          }
        }
        Done(world.(matches := world.matches[id := m]))
  }

  // ------------------------------------------------------------- weights

  predicate UnitWeight(x: real) {
    0.0 <= x <= 1.0
  }

  /** The weights outside [0, 1]. */
  function WeightErrors(p: Weights): (e: set<WeightField>)
    ensures SkillsWeight in e <==> !UnitWeight(p.skills)
    ensures ExperienceWeight in e <==> !UnitWeight(p.experience)
    ensures IndustryWeight in e <==> !UnitWeight(p.industry)
    ensures CommunicationWeight in e <==> !UnitWeight(p.communication)
    ensures TimezoneWeight in e <==> !UnitWeight(p.timezone)
    ensures AvailabilityWeight in e <==> !UnitWeight(p.availability)
  {
    (if UnitWeight(p.skills) then {} else {SkillsWeight})
    + (if UnitWeight(p.experience) then {} else {ExperienceWeight})
    + (if UnitWeight(p.industry) then {} else {IndustryWeight})
    + (if UnitWeight(p.communication) then {} else {CommunicationWeight})
    + (if UnitWeight(p.timezone) then {} else {TimezoneWeight})
    + (if UnitWeight(p.availability) then {} else {AvailabilityWeight})
  }

  /** `updateAlgorithmWeights`: each weight in [0, 1] and the sum within 0.01
      of 1, after which the service takes them. The result is the weights
      the request's service instance holds; a refusal leaves them as they
      were. */
  function UpdateAlgorithmWeights(proposed: Weights): (r: Outcome<Weights, Refusal>)
    ensures r.Refused? && r.reason.InvalidWeights? <==> WeightErrors(proposed) != {}
    ensures r.Refused? && r.reason.InvalidWeights? ==> r.reason.weightFields == WeightErrors(proposed)
    ensures r == Refused(WeightsDoNotSumToOne) <==>
      WeightErrors(proposed) == {} && !(0.99 <= WeightSum(proposed) <= 1.01)
    ensures r.Done? || r.Refused?
    ensures r.Done? ==> r.state == proposed && NonNegative(r.state) && SumsToOne(WeightSum(r.state))
  {
    var errors := WeightErrors(proposed);
    if errors != {} then Refused(InvalidWeights(errors))
    else if !SumsToOne(WeightSum(proposed)) then Refused(WeightsDoNotSumToOne)
    else match SetWeights(proposed)
      case Success(weights) => Done(weights)
      case Failure(_) => assert false; Refused(WeightsDoNotSumToOne)
  }

  /** Weights the administrator can set keep every score within [0, 100]. */
  lemma AcceptedWeightsBoundScores(proposed: Weights, catalog: Skills.Catalog, mentor: User, mentee: User,
                                   capacity: Option<MentorCapacity>)
    requires UpdateAlgorithmWeights(proposed).Done?
    requires ValidProficiencies(mentor)
    ensures 0.0 <= CalculateCompatibility(UpdateAlgorithmWeights(proposed).state, catalog, mentor, mentee, capacity) <= 100.0
  {
  }

  // ------------------------------------------------------------ capacity

  datatype CapacityForm = CapacityForm(maxMentees: int, status: string)

  function CapacityErrors(form: CapacityForm): (e: set<CapacityField>)
    ensures MaxMenteesField in e <==> !(1 <= form.maxMentees <= 10)
    ensures AvailabilityField in e <==> ParseAvailability(form.status).None?
  {
    (if 1 <= form.maxMentees <= 10 then {} else {MaxMenteesField})
    + (if ParseAvailability(form.status).Some? then {} else {AvailabilityField})
  }

  /** `updateMentorCapacity`: for a mentor, overwrite the maximum and the
      status of their record (creating it with no mentees if missing). The
      status is stored as given, not recomputed, and the count is kept even
      when it now exceeds the maximum. */
  function UpdateMentorCapacity(world: World, user: User, form: CapacityForm): (r: Outcome<World, Refusal>)
    ensures r == Refused(NotAMentor) <==> !IsMentor(user)
    ensures r.Refused? && r.reason.InvalidCapacity? <==> IsMentor(user) && CapacityErrors(form) != {}
    ensures r.Refused? && r.reason.InvalidCapacity? ==> r.reason.capacityFields == CapacityErrors(form)
    ensures r.Done? || r.Refused?
    ensures r.Done? ==>
      && r.state == world.(capacities := r.state.capacities)
      && r.state.capacities.Keys == world.capacities.Keys + {user.id}
      && (forall id | id in world.capacities && id != user.id :: r.state.capacities[id] == world.capacities[id])
    ensures r.Done? ==> var c := r.state.capacities[user.id];
      && c.mentorId == user.id
      && c.maxMentees == form.maxMentees
      && AvailabilityName(c.status) == form.status
      && c.currentMentees == (if user.id in world.capacities then world.capacities[user.id].currentMentees else 0)
    ensures WellFormed(world) && r.Done? ==> WellFormed(r.state)
  {
    if !IsMentor(user) then Refused(NotAMentor)
    else
      var errors := CapacityErrors(form);
      if errors != {} then Refused(InvalidCapacity(errors))
      else
        var status := ParseAvailability(form.status).value;
        var c := if user.id in world.capacities
          then world.capacities[user.id].(mentorId := user.id, maxMentees := form.maxMentees, status := status)
          else MentorCapacity(user.id, form.maxMentees, 0, status);
        Done(world.(capacities := world.capacities[user.id := c]))
  }

  /** A record updated by the administrator can disagree with its counts:
      a mentor with no mentees can be marked full, and lowering the maximum
      below the count leaves a record without room that still says
      available. The next count change recomputes the status. */
  lemma AdminCapacityCanBeInconsistent(world: World, user: User)
    requires IsMentor(user) && user.id !in world.capacities
    ensures var r := UpdateMentorCapacity(world, user, CapacityForm(5, "full"));
      && r.Done? && !Consistent(r.state.capacities[user.id])
      && Consistent(Increment(r.state.capacities[user.id]))
    ensures var w2 := world.(capacities := world.capacities[user.id := MentorCapacity(user.id, 4, 3, Limited)]);
      var r := UpdateMentorCapacity(w2, user, CapacityForm(1, "available"));
      && r.Done? && !HasCapacity(r.state.capacities[user.id])
      && r.state.capacities[user.id].status == Available
  {
    assert ParseAvailability("full") == Some(Full);
    assert ParseAvailability("available") == Some(Available);
  }

  // ---------------------------------------------------------- match stats

  datatype MatchStats = MatchStats(total: nat, active: nat, pending: nat, completed: nat)

  /** The matches in which the user is either side. */
  function Involving(matches: seq<MentorshipMatch>, userId: UserId): (r: seq<MentorshipMatch>)
    ensures forall m | m in r :: m in matches && (m.mentorId == userId || m.menteeId == userId)
    ensures forall m | m in matches && (m.mentorId == userId || m.menteeId == userId) :: m in r
  {
    Filter(matches, (m: MentorshipMatch) => m.mentorId == userId || m.menteeId == userId)
  }

  /** The statistics on a user's detail page: every match involving the
      user, and how many of those are active, pending and completed. */
  function MatchStatsFor(matches: seq<MentorshipMatch>, userId: UserId): (r: MatchStats)
    ensures r.total == |Involving(matches, userId)|
    ensures r.active == |ActiveMatches(Involving(matches, userId))|
    ensures r.pending == |PendingMatches(Involving(matches, userId))|
    ensures r.completed == |CompletedMatches(Involving(matches, userId))|
    ensures r.active <= r.total && r.pending <= r.total && r.completed <= r.total
    ensures r.active + r.pending + r.completed <= r.total
  {
    var involving := Involving(matches, userId);
    CountIsFilterLength(involving, IsActive);
    CountIsFilterLength(involving, IsPending);
    CountIsFilterLength(involving, IsCompleted);
    ExclusiveCountsBounded(involving, IsActive, IsPending, IsCompleted);
    MatchStats(|involving|, Count(involving, IsActive), Count(involving, IsPending), Count(involving, IsCompleted))
  }
}
