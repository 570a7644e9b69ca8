/** A mentor's capacity record (the `mentor_capacity` table): a mentee counter
    against a maximum, with an availability status recomputed from the two. */
module Capacity {
  import opened Wrappers

  datatype AvailabilityStatus = Available | Limited | Full

  datatype MentorCapacity = MentorCapacity(
    mentorId: nat,
    maxMentees: int,
    currentMentees: int,
    status: AvailabilityStatus)

  const DefaultMaxMentees: int := 2

  function AvailabilityName(s: AvailabilityStatus): string {
    match s
    case Available => "available"
    case Limited => "limited"
    case Full => "full"
  }

  /** The `in:available,limited,full` validation rule. */
  function ParseAvailability(s: string): (r: Option<AvailabilityStatus>)
    ensures r.Some? ==> AvailabilityName(r.value) == s
    ensures forall st: AvailabilityStatus :: s == AvailabilityName(st) ==> r == Some(st)
  {
    if s == "available" then Some(Available)
    else if s == "limited" then Some(Limited)
    else if s == "full" then Some(Full)
    else None
  }

  /** A record created with the model's attribute defaults. */
  function Fresh(mentorId: nat): (c: MentorCapacity)
    ensures c.mentorId == mentorId
    ensures c.maxMentees == 2 && c.currentMentees == 0 && c.status == Available
    ensures Consistent(c) && HasCapacity(c)
  {
    MentorCapacity(mentorId, DefaultMaxMentees, 0, Available)
  }

  predicate HasCapacity(c: MentorCapacity) {
    c.currentMentees < c.maxMentees
  }

  /** The number of free slots, never negative. */
  function AvailableSlots(c: MentorCapacity): (n: int)
    ensures n >= 0
    ensures n > 0 <==> HasCapacity(c)
    ensures HasCapacity(c) ==> c.currentMentees + n == c.maxMentees
  {
    if c.maxMentees - c.currentMentees > 0 then c.maxMentees - c.currentMentees else 0
  }

  /** The status for a count against a maximum, with the 75% threshold
      written over the reals as the source compares it. */
  function StatusFor(current: int, max: int): (s: AvailabilityStatus)
    ensures s == Full <==> current >= max
    ensures s == Limited <==> current < max && 4 * current >= 3 * max
    ensures s == Available <==> 4 * current < 3 * max && current < max
  {
    if current >= max then Full
    else if current as real >= max as real * 0.75 then Limited
    else Available
  }

  /** The stored status agrees with the counts. */
  predicate Consistent(c: MentorCapacity) {
    c.status == StatusFor(c.currentMentees, c.maxMentees)
  }

  /** Recomputes the status; the counts are untouched. */
  function Refresh(c: MentorCapacity): (r: MentorCapacity)
    ensures Consistent(r)
    ensures r.(status := c.status) == c
  {
    c.(status := StatusFor(c.currentMentees, c.maxMentees))
  }

  /** One more mentee, then a status refresh. */
  function Increment(c: MentorCapacity): (r: MentorCapacity)
    ensures r.currentMentees == c.currentMentees + 1
    ensures r.maxMentees == c.maxMentees && r.mentorId == c.mentorId
    ensures Consistent(r)
  {
    Refresh(c.(currentMentees := c.currentMentees + 1))
  }

  /** One mentee fewer, then a status refresh; there is no floor at zero. */
  function Decrement(c: MentorCapacity): (r: MentorCapacity)
    ensures r.currentMentees == c.currentMentees - 1
    ensures r.maxMentees == c.maxMentees && r.mentorId == c.mentorId
    ensures Consistent(r)
  {
    Refresh(c.(currentMentees := c.currentMentees - 1))
  }

  /** Increment and decrement undo each other up to the status refresh. */
  lemma IncrementDecrementInverse(c: MentorCapacity)
    ensures Decrement(Increment(c)) == Refresh(c)
    ensures Increment(Decrement(c)) == Refresh(c)
    ensures Consistent(c) ==> Decrement(Increment(c)) == c
  {
  }

  /** Taking a mentee while there is room never overshoots the maximum, and
      fills the record exactly when the last slot is taken. */
  lemma IncrementWithinCapacity(c: MentorCapacity)
    requires HasCapacity(c)
    ensures Increment(c).currentMentees <= c.maxMentees
    ensures Increment(c).status == Full <==> c.currentMentees + 1 == c.maxMentees
    ensures AvailableSlots(Increment(c)) == AvailableSlots(c) - 1
  {
  }

  function StatusRank(s: AvailabilityStatus): nat {
    match s
    case Available => 0
    case Limited => 1
    case Full => 2
  }

  /** The status only moves towards `full` as the count grows. */
  lemma StatusMonotone(c1: int, c2: int, max: int)
    requires c1 <= c2
    ensures StatusRank(StatusFor(c1, max)) <= StatusRank(StatusFor(c2, max))
  {
  }

  /** With no floor, decrementing an empty record drives the count below
      zero; such a record still reads as `available`. */
  lemma DecrementBelowZero(c: MentorCapacity)
    requires c.currentMentees <= 0 < c.maxMentees
    ensures Decrement(c).currentMentees < 0
    ensures Decrement(c).status == Available
  {
  }
}
