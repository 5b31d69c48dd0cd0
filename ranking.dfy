/**
 * The internal recommendation strategy: the aggregation pipeline the handler
 * runs over the users collection when it does not delegate to an external
 * engine. The stages are applied in the source's order: one `$match` on
 * recency, activity, exclusion and bot flag; two `$match`es on the balance
 * `followingCount / followersCount`; `$sort` by followers, descending;
 * `$limit`; then `$skip`.
 */
module Ranking {
  import opened Users
  import opened Aggregation

  /** `ms('5days')` in milliseconds. */
  const FiveDays: int := 432_000_000

  /** The `$gte: 10` bound on each of the three counters. */
  const MinCount: int := 10

  /** The first `$match`: recent, active enough, not excluded and not flagged as a bot. */
  predicate FirstStage(u: User, since: int, excluded: seq<UserId>) {
    && u.updatedAt >= since
    && u.followersCount >= MinCount
    && u.followingCount >= MinCount
    && u.notesCount >= MinCount
    && u.id !in excluded
    && !u.isBot
  }

  /**
   * `fb > 0.5` where `fb = followingCount / followersCount`, stated without
   * division; it agrees with the division whenever followersCount > 0
   * (BalanceBoundsAreExact), which the first stage guarantees.
   */
  predicate BalanceAboveHalf(u: User) {
    2 * u.followingCount > u.followersCount
  }

  /** `fb < 5`, stated without division in the same way. */
  predicate BalanceBelowFive(u: User) {
    u.followingCount < 5 * u.followersCount
  }

  /** The `$sort` key. */
  function Followers(u: User): (r: int) {
    u.followersCount
  }

  /** The balance as an exact ratio (the source computes it in floating point). */
  function Balance(u: User): (r: real)
    requires u.followersCount > 0
    ensures r * u.followersCount as real == u.followingCount as real
  {
    u.followingCount as real / u.followersCount as real
  }

  /** The integer stage predicates decide exactly the source's two comparisons on the balance. */
  lemma BalanceBoundsAreExact(u: User)
    requires u.followersCount > 0
    ensures BalanceAboveHalf(u) <==> Balance(u) > 0.5
    ensures BalanceBelowFive(u) <==> Balance(u) < 5.0
  {
    var f, g := u.followingCount as real, u.followersCount as real;
    QuotientCompare(f, g, 0.5);
    QuotientCompare(f, g, 5.0);
    assert (2 * u.followingCount) as real == 2.0 * f;
    assert (5 * u.followersCount) as real == 5.0 * g;
  }

  /** Comparing a quotient with a bound is comparing the dividend with the bound times the divisor. */
  lemma QuotientCompare(f: real, g: real, c: real)
    requires g > 0.0
    ensures f / g > c <==> f > c * g
    ensures f / g < c <==> f < c * g
  {
    var q := f / g;
    assert q * g == f;
    assert q * g - c * g == (q - c) * g;
    if q > c {
      assert (q - c) * g > 0.0;
    } else if q < c {
      assert (c - q) * g > 0.0;
    }
  }

  /** The documents that survive the three `$match` stages, in population order. */
  function Candidates(users: seq<User>, since: int, excluded: seq<UserId>): (r: seq<User>)
    ensures |r| <= |users|
  {
    var active := Filter(users, u => FirstStage(u, since, excluded));
    var aboveHalf := Filter(active, BalanceAboveHalf);
    Filter(aboveHalf, BalanceBelowFive)
  }

  /** The whole pipeline, `$match` through `$skip`. */
  function Rank(users: seq<User>, since: int, excluded: seq<UserId>, limit: nat, offset: nat): (r: seq<User>)
    ensures |r| <= limit && |r| <= |users|
  {
    Skip(Limit(SortDesc(Candidates(users, since, excluded), Followers), limit), offset)
  }

  /** Everything of a candidate that the three `$match` stages test. */
  predicate Eligible(u: User, since: int, excluded: seq<UserId>) {
    FirstStage(u, since, excluded) && BalanceAboveHalf(u) && BalanceBelowFive(u)
  }

  /** A user is a candidate exactly when it is in the population and passes every `$match`. */
  lemma CandidatesExactly(users: seq<User>, since: int, excluded: seq<UserId>)
    ensures forall u :: u in Candidates(users, since, excluded) <==> u in users && Eligible(u, since, excluded)
    ensures forall u :: multiset(Candidates(users, since, excluded))[u]
                        == if Eligible(u, since, excluded) then multiset(users)[u] else 0
  {
    var p := u => FirstStage(u, since, excluded);
    var active := Filter(users, p);
    var aboveHalf := Filter(active, BalanceAboveHalf);
    assert Candidates(users, since, excluded) == Filter(aboveHalf, BalanceBelowFive);
    forall u ensures p(u) == FirstStage(u, since, excluded) { }
  }

  /** Every returned user comes from the population and passes every `$match`. */
  lemma RankedAreEligible(users: seq<User>, since: int, excluded: seq<UserId>, limit: nat, offset: nat)
    ensures forall u :: u in Rank(users, since, excluded, limit, offset) ==> u in users && Eligible(u, since, excluded)
  {
    var c := Candidates(users, since, excluded);
    var sorted := SortDesc(c, Followers);
    CandidatesExactly(users, since, excluded);
    forall u | u in Rank(users, since, excluded, limit, offset) ensures u in c {
      assert u in sorted;
      assert u in multiset(sorted);
    }
  }

  /** The returned users are in non-increasing order of followersCount. */
  lemma RankedInFollowerOrder(users: seq<User>, since: int, excluded: seq<UserId>, limit: nat, offset: nat)
    ensures SortedDesc(Rank(users, since, excluded, limit, offset), Followers)
  {
    var sorted := SortDesc(Candidates(users, since, excluded), Followers);
    var page := Limit(sorted, limit);
    var r := Skip(page, offset);
    forall i, j | 0 <= i < j < |r| ensures Followers(r[i]) >= Followers(r[j]) {
      assert r[i] == page[offset + i] == sorted[offset + i];
      assert r[j] == page[offset + j] == sorted[offset + j];
    }
  }

  /**
   * `$limit` runs before `$skip`: the result is the window
   * [offset, min(limit, n)) of the sorted candidates, so its length is
   * max(0, min(limit, n) - offset) and it never exceeds `limit`.
   */
  lemma RankedWindow(users: seq<User>, since: int, excluded: seq<UserId>, limit: nat, offset: nat)
    ensures var n := |Candidates(users, since, excluded)|;
            var top := if limit < n then limit else n;
            |Rank(users, since, excluded, limit, offset)| == (if offset < top then top - offset else 0)
    ensures |Rank(users, since, excluded, limit, offset)| <= limit
    ensures var r := Rank(users, since, excluded, limit, offset);
            forall i :: 0 <= i < |r| ==> r[i] == SortDesc(Candidates(users, since, excluded), Followers)[offset + i]
  {
    var c := Candidates(users, since, excluded);
    var sorted := SortDesc(c, Followers);
    assert |sorted| == |c|;
    assert Rank(users, since, excluded, limit, offset) == Skip(Limit(sorted, limit), offset);
    LimitThenSkip(sorted, limit, offset);
  }

  /** Once `offset` reaches `limit` the internal strategy returns nothing, whatever the population. */
  lemma OffsetAtLimitIsEmpty(users: seq<User>, since: int, excluded: seq<UserId>, limit: nat, offset: nat)
    requires offset >= limit
    ensures Rank(users, since, excluded, limit, offset) == []
  {
    RankedWindow(users, since, excluded, limit, offset);
  }

  /** With offset 0 the result is the `limit` most-followed candidates: nothing left out has more followers. */
  lemma FirstPageIsTop(users: seq<User>, since: int, excluded: seq<UserId>, limit: nat, u: User)
    requires u in users && Eligible(u, since, excluded)
    requires u !in Rank(users, since, excluded, limit, 0)
    ensures forall v :: v in Rank(users, since, excluded, limit, 0) ==> Followers(v) >= Followers(u)
  {
    var c := Candidates(users, since, excluded);
    var sorted := SortDesc(c, Followers);
    CandidatesExactly(users, since, excluded);
    assert u in multiset(c);
    assert u in multiset(sorted);
    SkipNone(Limit(sorted, limit));
    LimitKeepsLargest(sorted, Followers, limit, u);
  }


}
