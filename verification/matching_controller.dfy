/** The match lifecycle as users drive it (`MatchingController`): request,
    accept, decline and complete. Every action takes the signed-in user and
    the current time explicitly. */
module MatchingController {
  import opened Wrappers
  import opened Users
  import opened Capacity
  import opened Matches
  import opened Database
  import opened Scoring
  import opened Responses

  datatype Refusal =
    | NotFound           // no match with that id
    | OnlyMentors        // a mentee asked for someone who is not a mentor
    | OnlyMentees        // a mentor asked for someone who is not a mentee
    | AlreadyRequested   // the (mentor, mentee) pair is already stored
    | Unauthorized       // the user is not a side of the match
    | OnlyMentorsAccept  // the mentee side tried to accept
    | MenteeLimit        // the mentor has no room left

  // ------------------------------------------------------------- request

  /** The role checks made before anything else. */
  function RoleRefusal(requester: User, target: User): (r: Option<Refusal>)
    ensures r == Some(OnlyMentors) <==> IsMentee(requester) && !IsMentor(target)
    ensures r == Some(OnlyMentees) <==>
      !(IsMentee(requester) && !IsMentor(target)) && IsMentor(requester) && !IsMentee(target)
    ensures r.None? <==> (IsMentee(requester) ==> IsMentor(target)) && (IsMentor(requester) ==> IsMentee(target))
  {
    if IsMentee(requester) && !IsMentor(target) then Some(OnlyMentors)
    else if IsMentor(requester) && !IsMentee(target) then Some(OnlyMentees)
    else None
  }

  /** The (mentor, mentee) order in which the request is scored: a mentee
      requester is the mentee, anyone else the mentor. */
  function ScoredPair(requester: User, target: User): (User, User) {
    if IsMentee(requester) then (target, requester) else (requester, target)
  }

  function ScoreOf(w: Weights, world: World, pair: (User, User)): real {
    CalculateCompatibility(w, world.catalog, pair.0, pair.1, CapacityOf(world, pair.0))
  }

  /** The ids the request files, as the code chooses them: each column is
      picked on its own from the requester's roles. */
  function FiledIdsAsWritten(requester: User, target: User): (UserId, UserId) {
    (if IsMentor(requester) then requester.id else target.id,
     if IsMentee(requester) then requester.id else target.id)
  }

  /** `requestMatch` as written: the duplicate check and the stored row use
      the independently chosen ids. Scoring reads the scored mentor's
      capacity, which fails for a user who is not a mentor, before anything
      is stored. */
  function RequestMatchAsWritten(w: Weights, world: World, requester: User, target: User): (r: Outcome<World, Refusal>)
    ensures r.Refused? <==>
      RoleRefusal(requester, target).Some?
      || PairExists(world.matches, FiledIdsAsWritten(requester, target).0, FiledIdsAsWritten(requester, target).1)
    ensures r.Crashed? <==> !r.Refused? && !IsMentor(ScoredPair(requester, target).0)
    ensures r.Crashed? ==> r.state == world
    ensures r.Done? ==>
      r.state == world.(matches := world.matches + [NewMatch(
        FiledIdsAsWritten(requester, target).0, FiledIdsAsWritten(requester, target).1,
        ScoreOf(w, world, ScoredPair(requester, target)))])
    ensures WellFormed(world) && r.Done? ==> WellFormed(r.state)
  {
    var ids := FiledIdsAsWritten(requester, target);
    var refusal := RoleRefusal(requester, target);
    if refusal.Some? then Refused(refusal.value)
    else if PairExists(world.matches, ids.0, ids.1) then Refused(AlreadyRequested)
    else if CapacityOf(world, ScoredPair(requester, target).0).None? then Crashed(world)
    else
      var m := NewMatch(ids.0, ids.1, ScoreOf(w, world, ScoredPair(requester, target)));
      assert UniquePairs(world.matches) ==> UniquePairs(world.matches + [m]) by {
        if UniquePairs(world.matches) {
          AppendKeepsUnique(world.matches, m);
        }
      }
      Done(world.(matches := world.matches + [m]))
  }

  /** A requester with role `both` passes the role checks only against
      another `both` user, and then files a match with themself on both
      sides, scored for a different pair. */
  lemma BothRequesterMatchesThemself(w: Weights, world: World, requester: User, target: User)
    requires requester.role == Both && target.role == Both && requester.id != target.id
    requires !PairExists(world.matches, requester.id, requester.id)
    ensures var r := RequestMatchAsWritten(w, world, requester, target);
      && r.Done?
      && r.state.matches[|world.matches|].mentorId == requester.id
      && r.state.matches[|world.matches|].menteeId == requester.id
      && ScoredPair(requester, target).0 == target
  {
  }

  /** `requestMatch` with the row filed for the pair that was scored, so the
      requester and the target are the two sides of the new match. The role
      checks, and the failure of scoring for a mentor who is not one, are
      unchanged. */
  function RequestMatch(w: Weights, world: World, requester: User, target: User): (r: Outcome<World, Refusal>)
    ensures r == Refused(OnlyMentors) <==> IsMentee(requester) && !IsMentor(target)
    ensures r == Refused(OnlyMentees) <==> RoleRefusal(requester, target) == Some(OnlyMentees)
    ensures r == Refused(AlreadyRequested) <==>
      RoleRefusal(requester, target).None?
      && PairExists(world.matches, ScoredPair(requester, target).0.id, ScoredPair(requester, target).1.id)
    ensures r.Crashed? <==> !r.Refused? && !IsMentor(ScoredPair(requester, target).0)
    ensures r.Crashed? ==> r.state == world
    ensures r.Done? ==>
      && |r.state.matches| == |world.matches| + 1
      && r.state.matches[..|world.matches|] == world.matches
      && r.state == world.(matches := r.state.matches)
    ensures r.Done? ==> var m := r.state.matches[|world.matches|];
      && m.status == Pending && m.matchedAt.None? && m.completedAt.None?
      && {m.mentorId, m.menteeId} == {requester.id, target.id}
      && (IsMentee(requester) ==> m.menteeId == requester.id && m.mentorId == target.id)
      && (!IsMentee(requester) ==> m.mentorId == requester.id && m.menteeId == target.id)
      && m.score == ScoreOf(w, world, ScoredPair(requester, target))
    ensures WellFormed(world) && r.Done? ==> WellFormed(r.state)
  {
    var pair := ScoredPair(requester, target);
    var refusal := RoleRefusal(requester, target);
    if refusal.Some? then Refused(refusal.value)
    else if PairExists(world.matches, pair.0.id, pair.1.id) then Refused(AlreadyRequested)
    else if CapacityOf(world, pair.0).None? then Crashed(world)
    else
      var m := NewMatch(pair.0.id, pair.1.id, ScoreOf(w, world, pair));
      assert UniquePairs(world.matches) ==> UniquePairs(world.matches + [m]) by {
        if UniquePairs(world.matches) {
          AppendKeepsUnique(world.matches, m);
        }
      }
      assert (world.matches + [m])[..|world.matches|] == world.matches;
      Done(world.(matches := world.matches + [m]))
  }

  /** The two versions only differ for requesters holding both roles or
      neither; for a plain mentor or mentee they file the same row. */
  lemma RequestVersionsAgreeOnPlainRoles(w: Weights, world: World, requester: User, target: User)
    requires requester.role == Mentor || requester.role == Mentee
    ensures RequestMatch(w, world, requester, target) == RequestMatchAsWritten(w, world, requester, target)
  {
  }

  /** Past the role and duplicate checks, a request fails exactly when the
      requester holds neither role: the role checks make the target a
      mentor whenever the requester is a mentee. */
  lemma OnlyAdminRequestsCrash(w: Weights, world: World, requester: User, target: User)
    requires RoleRefusal(requester, target).None?
    ensures RequestMatch(w, world, requester, target).Crashed? <==>
      requester.role == Admin
      && !PairExists(world.matches, requester.id, target.id)
    ensures RequestMatchAsWritten(w, world, requester, target).Crashed? <==>
      requester.role == Admin
      && !PairExists(world.matches, target.id, target.id)
  {
  }

  // -------------------------------------------------------------- accept

  /** `acceptMatch`: only the mentor side may accept, and only with room
      left; the match becomes active and the mentor's count rises by one.
      The match's own status is not checked. A mentor-side user who is not a
      mentor fails reading their capacity, and nothing is written. */
  function AcceptMatch(world: World, user: User, id: nat, now: int): (r: Outcome<World, Refusal>)
    ensures r == Refused(NotFound) <==> id >= |world.matches|
    ensures r == Refused(Unauthorized) <==>
      id < |world.matches| && world.matches[id].mentorId != user.id && world.matches[id].menteeId != user.id
    ensures r == Refused(OnlyMentorsAccept) <==>
      id < |world.matches| && world.matches[id].mentorId != user.id && world.matches[id].menteeId == user.id
    ensures r == Refused(MenteeLimit) <==>
      id < |world.matches| && world.matches[id].mentorId == user.id
      && CapacityOf(world, user).Some? && !HasCapacity(CapacityOf(world, user).value)
    ensures r.Crashed? <==>
      id < |world.matches| && world.matches[id].mentorId == user.id && CapacityOf(world, user).None?
    ensures r.Crashed? ==> r.state == world
    ensures r.Done? ==>
      var c := CapacityOf(world, user).value;
      && r.state.matches == world.matches[id := Activate(world.matches[id], now)]
      && r.state.capacities == world.capacities[user.id := Increment(c)]
      && r.state.capacities[user.id].currentMentees <= r.state.capacities[user.id].maxMentees
      && r.state.users == world.users && r.state.catalog == world.catalog
    ensures WellFormed(world) && r.Done? ==> WellFormed(r.state)
  {
    if id >= |world.matches| then Refused(NotFound)
    else
      var m := world.matches[id];
      if m.mentorId != user.id && m.menteeId != user.id then Refused(Unauthorized)
      else if m.mentorId != user.id then Refused(OnlyMentorsAccept)
      else match CapacityOf(world, user)
        case None => Crashed(world)
        case Some(c) =>
          if !HasCapacity(c) then Refused(MenteeLimit)
          else
            IncrementWithinCapacity(c);
            assert UniquePairs(world.matches) ==> UniquePairs(world.matches[id := Activate(m, now)]) by {
              if UniquePairs(world.matches) {
                ReplaceKeepsUnique(world.matches, id, Activate(m, now));
              }
            }
            Done(world.(
              matches := world.matches[id := Activate(m, now)],
              capacities := world.capacities[user.id := Increment(c)]))
  }

  /** Accepting an already active match again counts the mentee twice while
      room is left. */
  lemma AcceptTwiceCountsTwice(world: World, user: User, id: nat, now: int, later: int)
    requires AcceptMatch(world, user, id, now).Done?
    requires var after := AcceptMatch(world, user, id, now).state;
      HasCapacity(after.capacities[user.id])
    ensures var after := AcceptMatch(world, user, id, now).state;
      var again := AcceptMatch(after, user, id, later);
      && again.Done?
      && again.state.matches == after.matches
      && again.state.capacities[user.id].currentMentees
         == CapacityOf(world, user).value.currentMentees + 2
  {
    var after := AcceptMatch(world, user, id, now).state;
    ActivateIdempotent(world.matches[id], now, later);
    assert after.matches[id] == Activate(world.matches[id], now);
  }

  // ------------------------------------------------------------- decline

  /** `declineMatch`: either side may decline, whatever the status; only the
      status changes, and no capacity is given back. */
  function DeclineMatch(world: World, user: User, id: nat): (r: Outcome<World, Refusal>)
    ensures r == Refused(NotFound) <==> id >= |world.matches|
    ensures r == Refused(Unauthorized) <==>
      id < |world.matches| && world.matches[id].mentorId != user.id && world.matches[id].menteeId != user.id
    ensures r.Done? || r.Refused?
    ensures r.Done? ==>
      && r.state.matches == world.matches[id := world.matches[id].(status := Discontinued)]
      && r.state == world.(matches := r.state.matches)
    ensures WellFormed(world) && r.Done? ==> WellFormed(r.state)
  {
    if id >= |world.matches| then Refused(NotFound)
    else
      var m := world.matches[id];
      if m.mentorId != user.id && m.menteeId != user.id then Refused(Unauthorized)
      else
        assert UniquePairs(world.matches) ==> UniquePairs(world.matches[id := m.(status := Discontinued)]) by {
          if UniquePairs(world.matches) {
            ReplaceKeepsUnique(world.matches, id, m.(status := Discontinued));
          }
        }
        Done(world.(matches := world.matches[id := m.(status := Discontinued)]))
  }

  // ------------------------------------------------------------ complete

  /** `completeMatch`: either side may complete, whatever the status. The
      match is completed first; then the mentor is loaded and their count
      drops by one. A mentor row that no longer exists (which the schema's
      foreign keys rule out, see `CompleteMatchFindsMentor`), or a
      mentor-side user who is not a mentor (whose capacity read fails),
      fails after the match was written. */
  function CompleteMatch(world: World, user: User, id: nat, now: int): (r: Outcome<World, Refusal>)
    ensures r == Refused(NotFound) <==> id >= |world.matches|
    ensures r == Refused(Unauthorized) <==>
      id < |world.matches| && world.matches[id].mentorId != user.id && world.matches[id].menteeId != user.id
    ensures !r.Refused? ==> r.state.matches == world.matches[id := Complete(world.matches[id], now)]
    ensures !r.Refused? ==> r.state.users == world.users && r.state.catalog == world.catalog
    ensures r.Crashed? <==>
      && !r.Refused?
      && (FindUser(world.users, world.matches[id].mentorId).None?
          || !IsMentor(FindUser(world.users, world.matches[id].mentorId).value))
    ensures r.Crashed? ==> r.state.capacities == world.capacities
    ensures r.Done? ==> var mentor := FindUser(world.users, world.matches[id].mentorId).value;
      r.state.capacities == world.capacities[mentor.id := Decrement(CapacityOf(world, mentor).value)]
    ensures WellFormed(world) && !r.Refused? ==> WellFormed(r.state)
  {
    if id >= |world.matches| then Refused(NotFound)
    else
      var m := world.matches[id];
      if m.mentorId != user.id && m.menteeId != user.id then Refused(Unauthorized)
      else
        var completed := world.(matches := world.matches[id := Complete(m, now)]);
        assert UniquePairs(world.matches) ==> UniquePairs(completed.matches) by {
          if UniquePairs(world.matches) {
            ReplaceKeepsUnique(world.matches, id, Complete(m, now));
          }
        }
        match FindUser(world.users, m.mentorId)
          case None => Crashed(completed)
          case Some(mentor) =>
            match CapacityOf(world, mentor)
              case None => Crashed(completed)
              case Some(c) => Done(completed.(capacities := world.capacities[mentor.id := Decrement(c)]))
  }

  /** Under the schema's foreign keys the mentor row of a match always
      exists, so `completeMatch` fails only for a mentor side who is not a
      mentor; the missing-row branch is unreachable. */
  lemma CompleteMatchFindsMentor(world: World, user: User, id: nat, now: int)
    requires MatchesReferenceUsers(world)
    ensures var r := CompleteMatch(world, user, id, now);
      !r.Refused? ==> FindUser(world.users, world.matches[id].mentorId).Some?
    ensures var r := CompleteMatch(world, user, id, now);
      r.Crashed? <==> !r.Refused? && !IsMentor(FindUser(world.users, world.matches[id].mentorId).value)
  {
  }

  /** Accepting a request and then completing the match gives a mentor whose
      stored record was consistent exactly the count they started with. */
  lemma AcceptThenCompleteRestoresCapacity(world: World, user: User, id: nat, now: int, later: int)
    requires user.id in world.capacities && Consistent(world.capacities[user.id])
    requires FindUser(world.users, user.id) == Some(user)
    requires AcceptMatch(world, user, id, now).Done?
    ensures var accepted := AcceptMatch(world, user, id, now).state;
      var completed := CompleteMatch(accepted, user, id, later);
      && completed.Done?
      && completed.state.capacities == world.capacities
      && completed.state.matches[id].status == Completed
  {
    var accepted := AcceptMatch(world, user, id, now).state;
    IncrementDecrementInverse(world.capacities[user.id]);
    assert accepted.matches[id].mentorId == user.id;
    assert CapacityOf(accepted, user) == Some(Increment(world.capacities[user.id]));
  }
}
