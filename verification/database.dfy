/** The stored state the controllers and the ranking read: the skill
    catalogue, the users, the capacity records keyed by mentor id and the
    matches (a match's id is its position). */
module Database {
  import opened Wrappers
  import opened Skills
  import opened Users
  import opened Capacity
  import opened Matches

  datatype World = World(
    catalog: Catalog,
    users: seq<User>,
    capacities: map<UserId, MentorCapacity>,
    matches: seq<MentorshipMatch>)

  /** What the schema guarantees of every stored state: unique user ids
      (the primary key), unique (mentor_id, mentee_id) pairs and capacity
      records filed under their own mentor. */
  ghost predicate WellFormed(w: World) {
    && (forall i, j | 0 <= i < j < |w.users| :: w.users[i].id != w.users[j].id)
    && UniquePairs(w.matches)
    && (forall id | id in w.capacities :: w.capacities[id].mentorId == id)
  }

  /** The foreign keys of `mentorship_matches`: both sides of every match
      name a stored user. Deleting a user cascades to their matches, so no
      match outlives either of its users. */
  ghost predicate MatchesReferenceUsers(w: World) {
    forall m | m in w.matches ::
      && (exists u | u in w.users :: u.id == m.mentorId)
      && (exists u | u in w.users :: u.id == m.menteeId)
  }

  /** The first user with the given id (`User::find`). */
  function FindUser(users: seq<User>, id: UserId): (r: Option<User>)
    ensures r.Some? ==> r.value in users && r.value.id == id
    ensures r.None? ==> forall u | u in users :: u.id != id
  {
    if |users| == 0 then None
    else if users[0].id == id then Some(users[0])
    else FindUser(users[1..], id)
  }

  /** The capacity record stored for a mentor id, as an eager load sees it. */
  function StoredCapacity(w: World, id: UserId): (r: Option<MentorCapacity>)
    ensures r.Some? <==> id in w.capacities
    ensures r.Some? ==> r.value == w.capacities[id]
  {
    if id in w.capacities then Some(w.capacities[id]) else None
  }

  /** The capacity record read through the user's `mentorCapacity` accessor
      when the relation is not loaded. For a mentor it is the stored record,
      or a record with the defaults when none is stored (the accessor creates
      it). For anyone else the accessor falls through to a relation that was
      never loaded and raises: `None` is that failure, whether or not a
      record is stored. */
  function CapacityOf(w: World, u: User): (r: Option<MentorCapacity>)
    ensures r.Some? <==> IsMentor(u)
    ensures r.Some? && u.id in w.capacities ==> r.value == w.capacities[u.id]
    ensures r.Some? && u.id !in w.capacities ==> r.value == Fresh(u.id)
  {
    if !IsMentor(u) then None
    else if u.id in w.capacities then Some(w.capacities[u.id])
    else Some(Fresh(u.id))
  }

  /** With unique ids, `FindUser` finds the one stored user with that id. */
  lemma FindUserUnique(users: seq<User>, u: User)
    requires forall i, j | 0 <= i < j < |users| :: users[i].id != users[j].id
    requires u in users
    ensures FindUser(users, u.id) == Some(u)
  {
  }
}
