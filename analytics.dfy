/** The admin overview's statistics: counts of profiles, projects and
    pending reviews as the database reports them, and the total coupon usage
    summed from the coupons' `used_count` column. */
module Analytics {
  import opened Common
  import Coupons
  import ReviewModerator

  datatype Stats = Stats(users: int, projects: int, pendingReviews: int, couponUsage: int)

  /** The four query results: exact counts (null when a query fails) and the
      `used_count` column, each value nullable, or no rows at all. */
  datatype StatsResults = StatsResults(
    usersCount: Option<int>,
    projectsCount: Option<int>,
    pendingCount: Option<int>,
    usedCounts: Option<seq<Option<int>>>)

  /** `count || 0` and `used_count || 0`: a null count is zero. */
  function OrZero(c: Option<int>): (r: int)
    ensures c.None? ==> r == 0
    ensures c.Some? ==> r == c.value
  {
    if c.Some? && c.value != 0 then c.value else 0
  }

  /** `rows.reduce((acc, curr) => acc + (curr.used_count || 0), 0)`, folded
      from the left. */
  function UsageSum(rows: seq<Option<int>>): int
  {
    if rows == [] then 0
    else UsageSum(rows[..|rows| - 1]) + OrZero(rows[|rows| - 1])
  }

  /** The sum of a concatenation is the sum of its parts. */
  lemma {:induction false} UsageSumConcat(a: seq<Option<int>>, b: seq<Option<int>>)
    ensures UsageSum(a + b) == UsageSum(a) + UsageSum(b)
    decreases |b|
  {
    if b == [] {
      assert a + b == a;
    } else {
      var b' := b[..|b| - 1];
      assert (a + b)[..|a + b| - 1] == a + b';
      UsageSumConcat(a, b');
    }
  }

  /** Null values add nothing: dropping them leaves the same total. */
  lemma {:induction false} NullsAddNothing(a: seq<Option<int>>, b: seq<Option<int>>)
    ensures UsageSum(a + [None] + b) == UsageSum(a + b)
  {
    UsageSumConcat(a + [None], b);
    UsageSumConcat(a, b);
    assert (a + [None])[..|a|] == a;
  }

  /** With no negative counts the total is never negative and at least each
      coupon's own count. */
  lemma {:induction false} UsageSumBounds(rows: seq<Option<int>>)
    requires forall i :: 0 <= i < |rows| ==> OrZero(rows[i]) >= 0
    ensures UsageSum(rows) >= 0
    ensures forall i :: 0 <= i < |rows| ==> OrZero(rows[i]) <= UsageSum(rows)
  {
    if rows != [] {
      var init := rows[..|rows| - 1];
      assert forall i :: 0 <= i < |init| ==> init[i] == rows[i];
      UsageSumBounds(init);
    }
  }

  /** The `used_count` column of the coupons table. */
  function UsedCounts(coupons: seq<Coupons.Coupon>): (r: seq<Option<int>>)
    ensures |r| == |coupons|
    ensures forall i :: 0 <= i < |coupons| ==> r[i] == Some(coupons[i].usedCount)
  {
    seq(|coupons|, i requires 0 <= i < |coupons| => Some(coupons[i].usedCount))
  }

  /** The statistics a completed fetch shows. */
  function StatsFrom(r: StatsResults): Stats
  {
    Stats(OrZero(r.usersCount), OrZero(r.projectsCount), OrZero(r.pendingCount),
      if r.usedCounts.Some? then UsageSum(r.usedCounts.value) else 0)
  }

  /** A failed count shows as zero, and so does a missing coupon column. */
  lemma FailuresShowZero(r: StatsResults)
    ensures r.usersCount.None? ==> StatsFrom(r).users == 0
    ensures r.projectsCount.None? ==> StatsFrom(r).projects == 0
    ensures r.pendingCount.None? ==> StatsFrom(r).pendingReviews == 0
    ensures r.usedCounts.None? ==> StatsFrom(r).couponUsage == 0
  {
  }

  /** When the pending-review count is the size of the pending reviews in the
      table, the card shows as many as the moderator's default view lists. */
  lemma PendingMatchesModeratorView(r: StatsResults, table: seq<ReviewModerator.Review>)
    requires r.pendingCount == Some(|ReviewModerator.Fetched(table, ReviewModerator.PendingOnly)|)
    ensures StatsFrom(r).pendingReviews == |ReviewModerator.Fetched(table, ReviewModerator.DefaultView)|
  {
  }

  /** The usage card over a coupons table with no negative counts is not
      negative and is at least any one coupon's count. */
  lemma CouponUsageBounds(r: StatsResults, coupons: seq<Coupons.Coupon>)
    requires r.usedCounts == Some(UsedCounts(coupons))
    requires forall i :: 0 <= i < |coupons| ==> coupons[i].usedCount >= 0
    ensures StatsFrom(r).couponUsage >= 0
    ensures forall i :: 0 <= i < |coupons| ==> coupons[i].usedCount <= StatsFrom(r).couponUsage
  {
    var rows := UsedCounts(coupons);
    UsageSumBounds(rows);
    assert forall i :: 0 <= i < |coupons| ==> OrZero(rows[i]) == coupons[i].usedCount;
  }

  class Overview {
    var stats: Stats
    var loading: bool

    constructor ()
      ensures stats == Stats(0, 0, 0, 0) && loading
    {
      stats, loading := Stats(0, 0, 0, 0), true;
    }

    /** `fetchStats` once all four queries have answered. */
    method ApplyResults(r: StatsResults)
      modifies this
      ensures stats == StatsFrom(r) && !loading
    {
      stats := StatsFrom(r);
      loading := false;
    }
  }
}
