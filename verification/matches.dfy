/** A mentorship match (the `mentorship_matches` table): its status, its two
    timestamps, the lifecycle steps on one record and the table-wide unique
    (mentor_id, mentee_id) constraint. */
module Matches {
  import opened Wrappers
  import opened Collections

  /** The `status` column is an enum of exactly these five values. */
  datatype MatchStatus = Pending | Active | OnHold | Completed | Discontinued

  /** `mentorId`/`menteeId` are user ids; the timestamps are instants on the
      model's integer time line, absent while null. */
  datatype MentorshipMatch = MentorshipMatch(
    mentorId: nat,
    menteeId: nat,
    score: real,
    status: MatchStatus,
    matchedAt: Option<int>,
    completedAt: Option<int>)

  function MatchStatusName(s: MatchStatus): string {
    match s
    case Pending => "pending"
    case Active => "active"
    case OnHold => "on_hold"
    case Completed => "completed"
    case Discontinued => "discontinued"
  }

  /** The `in:pending,active,on_hold,completed,discontinued` validation rule. */
  function ParseMatchStatus(s: string): (r: Option<MatchStatus>)
    ensures r.Some? ==> MatchStatusName(r.value) == s
    ensures forall st: MatchStatus :: s == MatchStatusName(st) ==> r == Some(st)
  {
    if s == "pending" then Some(Pending)
    else if s == "active" then Some(Active)
    else if s == "on_hold" then Some(OnHold)
    else if s == "completed" then Some(Completed)
    else if s == "discontinued" then Some(Discontinued)
    else None
  }

  /** A match created without an explicit status: pending, no timestamps. */
  function NewMatch(mentorId: nat, menteeId: nat, score: real): (m: MentorshipMatch)
    ensures m.status == Pending && m.matchedAt.None? && m.completedAt.None?
    ensures m.mentorId == mentorId && m.menteeId == menteeId && m.score == score
  {
    MentorshipMatch(mentorId, menteeId, score, Pending, None, None)
  }

  /** Makes the match active; `matchedAt` is stamped only if it was null. */
  function Activate(m: MentorshipMatch, now: int): (r: MentorshipMatch)
    ensures r.status == Active && r.matchedAt.Some?
    ensures m.matchedAt.Some? ==> r.matchedAt == m.matchedAt
    ensures m.matchedAt.None? ==> r.matchedAt == Some(now)
    ensures r.(status := m.status, matchedAt := m.matchedAt) == m
  {
    m.(status := Active, matchedAt := Some(m.matchedAt.GetOr(now)))
  }

  /** Activating twice is the same as activating once, whenever it happens. */
  lemma ActivateIdempotent(m: MentorshipMatch, first: int, second: int)
    ensures Activate(Activate(m, first), second) == Activate(m, first)
  {
  }

  /** Marks the match completed and always restamps `completedAt`. */
  function Complete(m: MentorshipMatch, now: int): (r: MentorshipMatch)
    ensures r.status == Completed && r.completedAt == Some(now)
    ensures r.(status := m.status, completedAt := m.completedAt) == m
  {
    m.(status := Completed, completedAt := Some(now))
  }

  predicate IsActive(m: MentorshipMatch) {
    m.status == Active
  }

  /** The test behind the `completed` scope. */
  predicate IsCompleted(m: MentorshipMatch) {
    m.status == Completed
  }

  predicate IsPending(m: MentorshipMatch) {
    m.status == Pending
  }

  /** `matchedAt`, once set, keeps its value. */
  ghost predicate KeepsMatchedAt(before: MentorshipMatch, after: MentorshipMatch) {
    before.matchedAt.Some? ==> after.matchedAt == before.matchedAt
  }

  /** Both lifecycle steps keep `matchedAt` set once; completing keeps the
      match's pair and score. */
  lemma LifecycleKeepsMatchedAt(m: MentorshipMatch, now: int)
    ensures KeepsMatchedAt(m, Activate(m, now))
    ensures KeepsMatchedAt(m, Complete(m, now))
    ensures IsActive(Activate(m, now)) && !IsPending(Activate(m, now))
    ensures !IsActive(Complete(m, now)) && !IsPending(Complete(m, now))
  {
  }

  /** The `active` scope. */
  function ActiveMatches(ms: seq<MentorshipMatch>): (r: seq<MentorshipMatch>)
    ensures forall m | m in r :: m in ms && m.status == Active
    ensures forall m | m in ms && m.status == Active :: m in r
  {
    Filter(ms, IsActive)
  }

  /** The `pending` scope. */
  function PendingMatches(ms: seq<MentorshipMatch>): (r: seq<MentorshipMatch>)
    ensures forall m | m in r :: m in ms && m.status == Pending
    ensures forall m | m in ms && m.status == Pending :: m in r
  {
    Filter(ms, IsPending)
  }

  /** The `completed` scope. */
  function CompletedMatches(ms: seq<MentorshipMatch>): (r: seq<MentorshipMatch>)
    ensures forall m | m in r :: m in ms && m.status == Completed
    ensures forall m | m in ms && m.status == Completed :: m in r
  {
    Filter(ms, IsCompleted)
  }

  /** Some stored match has exactly this (mentor, mentee) pair; the reverse
      pair does not count. */
  predicate PairExists(ms: seq<MentorshipMatch>, mentorId: nat, menteeId: nat) {
    exists i | 0 <= i < |ms| :: ms[i].mentorId == mentorId && ms[i].menteeId == menteeId
  }

  /** The table's unique (mentor_id, mentee_id) constraint. */
  ghost predicate UniquePairs(ms: seq<MentorshipMatch>) {
    forall i, j | 0 <= i < j < |ms| ::
      ms[i].mentorId != ms[j].mentorId || ms[i].menteeId != ms[j].menteeId
  }

  /** Appending a match whose pair is not yet stored keeps pairs unique. */
  lemma AppendKeepsUnique(ms: seq<MentorshipMatch>, m: MentorshipMatch)
    requires UniquePairs(ms)
    requires !PairExists(ms, m.mentorId, m.menteeId)
    ensures UniquePairs(ms + [m])
  {
  }

  /** Rewriting a match without touching its pair keeps pairs unique. */
  lemma ReplaceKeepsUnique(ms: seq<MentorshipMatch>, i: nat, m: MentorshipMatch)
    requires UniquePairs(ms)
    requires i < |ms| && m.mentorId == ms[i].mentorId && m.menteeId == ms[i].menteeId
    ensures UniquePairs(ms[i := m])
  {
  }
}
