/** The shortlist of `MatchingService::getMatches`: walk the candidate pool,
    keep the eligible candidates scoring at least 60, sort them by score
    (highest first, ties in candidate order) and keep the first three. */
module Ranking {
  import opened Wrappers
  import opened Collections
  import opened Users
  import opened Capacity
  import opened Matches
  import opened Database
  import opened Scoring

  datatype Suggestion = Suggestion(user: User, score: real, reasons: seq<Reason>)

  const Threshold: real := 60.0

  const ShortlistSize: nat := 3

  function Descending(s: Suggestion): real {
    -s.score
  }

  /** The loop both sides share: in pool order, suggest each eligible user
      whose suggestion reaches the threshold. The suggestion is about the
      user it is made from. */
  function Walk(pool: seq<User>, eligible: User -> bool, suggest: User -> Suggestion): (r: seq<Suggestion>)
    requires forall u :: suggest(u).user == u
    ensures forall s | s in r ::
      s.user in pool && eligible(s.user) && s == suggest(s.user) && s.score >= Threshold
    ensures forall u | u in pool && eligible(u) && suggest(u).score >= Threshold :: suggest(u) in r
  {
    if |pool| == 0 then []
    else
      var rest := Walk(pool[1..], eligible, suggest);
      assert forall u | u in pool :: u == pool[0] || u in pool[1..];
      if eligible(pool[0]) && suggest(pool[0]).score >= Threshold then [suggest(pool[0])] + rest else rest
  }

  // --------------------------------------------------------- mentee side

  /** A pool user a mentee may be offered: an active mentor whose eagerly
      loaded capacity record exists and has room, not already matched with
      the mentee in that direction. */
  predicate MentorEligible(world: World, mentee: User, mentor: User) {
    && IsMentor(mentor)
    && mentor.isActive
    && mentor.id in world.capacities
    && HasCapacity(world.capacities[mentor.id])
    && !PairExists(world.matches, mentor.id, mentee.id)
  }

  /** What a mentor is offered to a mentee as. */
  function MentorSuggestion(w: Weights, world: World, mentee: User, mentor: User): Suggestion {
    Suggestion(
      mentor,
      CalculateCompatibility(w, world.catalog, mentor, mentee, StoredCapacity(world, mentor.id)),
      MatchReasons(world.catalog, mentor, mentee))
  }

  /** The mentee-side walk over the pool, in pool order. */
  function MentorCandidates(w: Weights, world: World, mentee: User, pool: seq<User>): (r: seq<Suggestion>)
    ensures forall s | s in r ::
      && s.user in pool
      && MentorEligible(world, mentee, s.user)
      && s == MentorSuggestion(w, world, mentee, s.user)
      && s.score >= Threshold
    ensures forall u | u in pool && MentorEligible(world, mentee, u)
      && MentorSuggestion(w, world, mentee, u).score >= Threshold ::
        MentorSuggestion(w, world, mentee, u) in r
  {
    Walk(pool, u => MentorEligible(world, mentee, u), u => MentorSuggestion(w, world, mentee, u))
  }

  /** Nothing compares ids on the mentee side: a `both` user who is an
      active mentor with room is eligible as their own mentor, and is
      offered themself when the score reaches the threshold. */
  lemma MenteeMayBeOfferedThemself(w: Weights, world: World, u: User)
    requires u.role == Both && u.isActive && u in world.users
    requires u.id in world.capacities && HasCapacity(world.capacities[u.id])
    requires !PairExists(world.matches, u.id, u.id)
    ensures IsMentee(u) && MentorEligible(world, u, u)
    ensures MentorSuggestion(w, world, u, u).score >= Threshold ==>
      MentorSuggestion(w, world, u, u) in MentorCandidates(w, world, u, world.users)
  {
  }

  // --------------------------------------------------------- mentor side

  /** A pool user a mentor may be offered: an active mentee not already
      matched with the mentor in that direction. */
  predicate MenteeEligible(world: World, mentor: User, mentee: User) {
    IsMentee(mentee) && mentee.isActive && !PairExists(world.matches, mentor.id, mentee.id)
  }

  /** What a mentee is offered to a mentor as; `capacity` is the mentor's. */
  function MenteeSuggestion(w: Weights, world: World, mentor: User, capacity: Option<MentorCapacity>,
                            mentee: User): Suggestion {
    Suggestion(
      mentee,
      CalculateCompatibility(w, world.catalog, mentor, mentee, capacity),
      MatchReasons(world.catalog, mentor, mentee))
  }

  /** The mentor-side walk over the pool, in pool order. */
  function MenteeCandidates(w: Weights, world: World, mentor: User, capacity: Option<MentorCapacity>,
                            pool: seq<User>): (r: seq<Suggestion>)
    ensures forall s | s in r ::
      && s.user in pool
      && MenteeEligible(world, mentor, s.user)
      && s == MenteeSuggestion(w, world, mentor, capacity, s.user)
      && s.score >= Threshold
    ensures forall u | u in pool && MenteeEligible(world, mentor, u)
      && MenteeSuggestion(w, world, mentor, capacity, u).score >= Threshold ::
        MenteeSuggestion(w, world, mentor, capacity, u) in r
  {
    Walk(pool, u => MenteeEligible(world, mentor, u), u => MenteeSuggestion(w, world, mentor, capacity, u))
  }

  // ----------------------------------------------------------- shortlist

  /** The scores never increase along the list. */
  ghost predicate BestFirst(r: seq<Suggestion>) {
    forall i, j | 0 <= i < j < |r| :: r[i].score >= r[j].score
  }

  /** The first three candidates after a stable sort by descending score:
      nothing left out scores higher than anything kept, and with fewer than
      three kept nothing is left out. The sort is stable: for every score,
      the kept candidates with that score are the first candidates with that
      score, in candidate order. */
  function Shortlist(candidates: seq<Suggestion>): (r: seq<Suggestion>)
    ensures |r| == Min(ShortlistSize, |candidates|)
    ensures BestFirst(r)
    ensures forall s | s in r :: s in candidates
    ensures forall c, s | c in multiset(candidates) - multiset(r) && s in r :: c.score <= s.score
    ensures |r| < ShortlistSize ==> multiset(r) == multiset(candidates)
    ensures forall v :: KeyedAs(r, Descending, v) <= KeyedAs(candidates, Descending, v)
  {
    var sorted := SortBy(candidates, Descending);
    var k := Min(ShortlistSize, |candidates|);
    TakeSorted(candidates, sorted, k);
    SortedPrefixKeepsTies(candidates, k, Descending);
    sorted[..k]
  }

  /** When every candidate has the same score, the shortlist is the first
      three candidates in candidate order. */
  lemma AllTiedKeepCandidateOrder(cs: seq<Suggestion>)
    requires forall i | 0 <= i < |cs| :: cs[i].score == cs[0].score
    ensures Shortlist(cs) == cs[..Min(ShortlistSize, |cs|)]
  {
    if |cs| > 0 {
      var r := Shortlist(cs);
      var v := -cs[0].score;
      KeyedAsAll(cs, Descending, v);
      assert forall i | 0 <= i < |r| :: Descending(r[i]) == v by {
        forall i | 0 <= i < |r|
          ensures Descending(r[i]) == v
        {
          assert r[i] in cs;
        }
      }
      KeyedAsAll(r, Descending, v);
      FullPrefix(r, cs, |r|);
    }
  }

  lemma FullPrefix(r: seq<Suggestion>, s: seq<Suggestion>, n: nat)
    requires r <= s && |r| == n
    ensures r == s[..n]
  {
  }

  /** Cutting a sorted copy of the candidates after `k` places. */
  lemma TakeSorted(candidates: seq<Suggestion>, sorted: seq<Suggestion>, k: nat)
    requires SortedBy(sorted, Descending) && multiset(sorted) == multiset(candidates)
    requires |sorted| == |candidates|
    requires k == Min(ShortlistSize, |candidates|)
    ensures BestFirst(sorted[..k])
    ensures forall s | s in sorted[..k] :: s in candidates
    ensures forall c, s | c in multiset(candidates) - multiset(sorted[..k]) && s in sorted[..k] :: c.score <= s.score
    ensures k < ShortlistSize ==> multiset(sorted[..k]) == multiset(candidates)
  {
    assert sorted == sorted[..k] + sorted[k..];
    assert multiset(candidates) - multiset(sorted[..k]) == multiset(sorted[k..]);
    forall s | s in sorted[..k]
      ensures s in candidates
    {
      assert s in multiset(sorted);
    }
    forall c, s | c in multiset(sorted[k..]) && s in sorted[..k]
      ensures c.score <= s.score
    {
      assert c in sorted[k..];
      var j :| k <= j < |sorted| && sorted[j] == c;
      var i :| 0 <= i < k && sorted[i] == s;
      assert Descending(sorted[i]) <= Descending(sorted[j]);
    }
    forall i, j | 0 <= i < j < k
      ensures sorted[..k][i].score >= sorted[..k][j].score
    {
      assert Descending(sorted[i]) <= Descending(sorted[j]);
    }
  }

  // ------------------------------------------------------------ getMatches

  /** The shortlist for a user. The mentee path runs for every mentee,
      including a user with role `both`; the mentor path runs for other
      mentors and yields nothing when the mentor has no room. */
  function GetMatches(w: Weights, world: World, user: User): (r: seq<Suggestion>)
    ensures |r| <= ShortlistSize
    ensures BestFirst(r)
    ensures forall s | s in r :: s.score >= Threshold && s.user in world.users
    ensures IsMentee(user) ==> forall s | s in r ::
      MentorEligible(world, user, s.user) && s == MentorSuggestion(w, world, user, s.user)
    ensures !IsMentee(user) && IsMentor(user) ==> forall s | s in r ::
      MenteeEligible(world, user, s.user)
      && s == MenteeSuggestion(w, world, user, CapacityOf(world, user), s.user)
    ensures !IsMentee(user) && IsMentor(user) && !HasCapacity(CapacityOf(world, user).value) ==> r == []
    ensures !IsMentee(user) && !IsMentor(user) ==> r == []
  {
    if IsMentee(user) then
      Shortlist(MentorCandidates(w, world, user, world.users))
    else if IsMentor(user) then
      var capacity := CapacityOf(world, user);
      if capacity.None? || !HasCapacity(capacity.value) then []
      else Shortlist(MenteeCandidates(w, world, user, capacity, world.users))
    else
      []
  }

  /** The mentee path keeps the best eligible mentors: a mentor who qualifies
      but is left out scores no higher than every mentor kept, and is only
      left out when all three places are taken. */
  lemma MenteeShortlistIsTopThree(w: Weights, world: World, mentee: User, mentor: User)
    requires IsMentee(mentee)
    requires mentor in world.users && MentorEligible(world, mentee, mentor)
    requires MentorSuggestion(w, world, mentee, mentor).score >= Threshold
    ensures var r := GetMatches(w, world, mentee);
      MentorSuggestion(w, world, mentee, mentor) !in r ==>
        |r| == ShortlistSize
        && forall s | s in r :: MentorSuggestion(w, world, mentee, mentor).score <= s.score
  {
    var candidates := MentorCandidates(w, world, mentee, world.users);
    var r := Shortlist(candidates);
    var c := MentorSuggestion(w, world, mentee, mentor);
    if c !in r {
      assert c in multiset(candidates) - multiset(r);
    }
  }

  /** The same for the mentor path, for a mentor with room. */
  lemma MentorShortlistIsTopThree(w: Weights, world: World, mentor: User, mentee: User)
    requires !IsMentee(mentor) && IsMentor(mentor)
    requires HasCapacity(CapacityOf(world, mentor).value)
    requires mentee in world.users && MenteeEligible(world, mentor, mentee)
    requires MenteeSuggestion(w, world, mentor, CapacityOf(world, mentor), mentee).score >= Threshold
    ensures var r := GetMatches(w, world, mentor);
      var c := MenteeSuggestion(w, world, mentor, CapacityOf(world, mentor), mentee);
      c !in r ==> |r| == ShortlistSize && forall s | s in r :: c.score <= s.score
  {
    var capacity := CapacityOf(world, mentor);
    var candidates := MenteeCandidates(w, world, mentor, capacity, world.users);
    var r := Shortlist(candidates);
    var c := MenteeSuggestion(w, world, mentor, capacity, mentee);
    if c !in r {
      assert c in multiset(candidates) - multiset(r);
    }
  }
}
