/** The mastery trend: a series of daily snapshots with its gaps filled forward. Days are day numbers. */
module MasteryTrend {

  type Snapshots = map<int, real>

  datatype Period = Week | Month | All

  /** First day of the period; a creation date in the future counts as today. */
  function PeriodStart(period: Period, created: int, today: int): int {
    match period
    case Week => today - 6
    case Month => today - 29
    case All => if created > today then today else created
  }

  /** The snapshot rows the query returns for a start day. */
  function Since(byDay: Snapshots, since: int): Snapshots {
    map d | d in byDay && d >= since :: byDay[d]
  }

  /** `d` is the latest known day from `since` up to and including `day`. */
  ghost predicate LatestKnown(byDay: Snapshots, since: int, day: int, d: int) {
    d in byDay && since <= d <= day && forall k | d < k <= day :: k !in byDay
  }

  ghost predicate FirstKnown(byDay: Snapshots, since: int, today: int, first: int) {
    first in byDay && since <= first <= today && forall k | since <= k < first :: k !in byDay
  }

  /** One value per day from the first known day on, each the latest known at that day. */
  ghost predicate IsFilled(byDay: Snapshots, since: int, today: int, series: seq<real>) {
    || (series == [] && forall k | since <= k <= today :: k !in byDay)
    || exists first :: FilledFrom(byDay, since, today, first, series)
  }

  ghost predicate FilledFrom(byDay: Snapshots, since: int, today: int, first: int, series: seq<real>) {
    && FirstKnown(byDay, since, today, first)
    && |series| == today - first + 1
    && forall i | 0 <= i < |series| :: HoldsAt(byDay, since, first, series, i)
  }

  ghost predicate HoldsAt(byDay: Snapshots, since: int, first: int, series: seq<real>, i: int)
    requires 0 <= i < |series|
  {
    ValueAt(byDay, since, first + i, series[i])
  }

  ghost predicate ValueAt(byDay: Snapshots, since: int, day: int, v: real) {
    exists d :: LatestKnown(byDay, since, day, d) && byDay[d] == v
  }

  method ForwardFillSeries(since: int, today: int, byDay: Snapshots) returns (series: seq<real>)
    ensures IsFilled(byDay, since, today, series)
  {
    series := [];
    var last, haveLast := 0.0, false;
    ghost var first, lastDay := since, since;
    var d := since;
    while d <= today
      invariant since <= d && (d <= today + 1 || d == since)
      invariant !haveLast ==> series == [] && forall k | since <= k < d :: k !in byDay
      invariant haveLast ==> FirstKnown(byDay, since, d - 1, first) && |series| == d - first
      invariant haveLast ==> LatestKnown(byDay, since, d - 1, lastDay) && byDay[lastDay] == last
      invariant forall i | 0 <= i < |series| :: ValueAt(byDay, since, first + i, series[i])
      decreases today - d
    {
      if d in byDay {
        if !haveLast {
          first := d;
        }
        last, haveLast, lastDay := byDay[d], true, d;
        assert LatestKnown(byDay, since, d, d);
        series := series + [byDay[d]];
      } else if haveLast {
        assert LatestKnown(byDay, since, d, lastDay);
        series := series + [last];
      }
      d := d + 1;
    }
    if haveLast {
      assert FilledFrom(byDay, since, today, first, series);
    }
  }

  lemma LatestIsUnique(byDay: Snapshots, since: int, later: int, day: int, v: real, w: real)
    requires since <= later && ValueAt(byDay, since, day, v) && ValueAt(byDay, later, day, w)
    ensures v == w
  {
    var d :| LatestKnown(byDay, since, day, d) && byDay[d] == v;
    var e :| LatestKnown(byDay, later, day, e) && byDay[e] == w;
    assert d == e;
  }

  /** The description determines the series. */
  lemma FilledIsUnique(byDay: Snapshots, since: int, today: int, s: seq<real>, t: seq<real>)
    requires IsFilled(byDay, since, today, s) && IsFilled(byDay, since, today, t)
    ensures s == t
  {
    LaterStartIsSuffix(byDay, since, since, today, s, t);
    LaterStartIsSuffix(byDay, since, since, today, t, s);
  }

  /** A later start over the same data gives a suffix of the earlier start's series. */
  lemma LaterStartIsSuffix(byDay: Snapshots, since: int, later: int, today: int, s: seq<real>, t: seq<real>)
    requires since <= later && IsFilled(byDay, since, today, s) && IsFilled(byDay, later, today, t)
    ensures |t| <= |s| && t == s[|s| - |t|..]
  {
    if t != [] {
      var b :| FilledFrom(byDay, later, today, b, t);
      assert s != [] by {
        assert b in byDay;
      }
      var a :| FilledFrom(byDay, since, today, a, s);
      assert a <= b;
      forall i | 0 <= i < |t|
        ensures t[i] == s[|s| - |t| + i]
      {
        SameOnOneDay(byDay, since, later, today, a, b, s, t, i);
      }
    }
  }

  lemma SameOnOneDay(byDay: Snapshots, since: int, later: int, today: int, a: int, b: int,
                     s: seq<real>, t: seq<real>, i: nat)
    requires since <= later && a <= b && i < |t|
    requires FilledFrom(byDay, since, today, a, s) && FilledFrom(byDay, later, today, b, t)
    ensures |t| <= |s| && t[i] == s[|s| - |t| + i]
  {
    assert HoldsAt(byDay, later, b, t, i);
    assert HoldsAt(byDay, since, a, s, b - a + i);
    LatestIsUnique(byDay, since, later, b + i, s[b - a + i], t[i]);
  }

  /** Rows before the start play no part. */
  lemma OnlyRowsSinceMatter(byDay: Snapshots, since: int, today: int, series: seq<real>)
    ensures var kept := map d | d in byDay && d >= since :: byDay[d];
            IsFilled(kept, since, today, series) <==> IsFilled(byDay, since, today, series)
  {
    if IsFilled(byDay, since, today, series) {
      SameFrom(byDay, Since(byDay, since), since, today, series);
    }
    if IsFilled(Since(byDay, since), since, today, series) {
      SameFrom(Since(byDay, since), byDay, since, today, series);
    }
  }

  lemma SameFrom(a: Snapshots, b: Snapshots, since: int, today: int, series: seq<real>)
    requires forall k | k >= since :: (k in a <==> k in b) && (k in a ==> a[k] == b[k])
    requires IsFilled(a, since, today, series)
    ensures IsFilled(b, since, today, series)
  {
    if series == [] && forall k | since <= k <= today :: k !in a {
    } else {
      var first :| FilledFrom(a, since, today, first, series);
      forall i | 0 <= i < |series|
        ensures HoldsAt(b, since, first, series, i)
      {
        assert HoldsAt(a, since, first, series, i);
        var d :| LatestKnown(a, since, first + i, d) && a[d] == series[i];
        assert LatestKnown(b, since, first + i, d);
      }
      assert FilledFrom(b, since, today, first, series);
    }
  }

  datatype Trend = Trend(series: seq<real>, delta: real)

  ghost predicate IsTrend(byDay: Snapshots, since: int, today: int, t: Trend) {
    IsFilled(byDay, since, today, t.series) && t.delta == Change(t.series)
  }

  function Change(series: seq<real>): real {
    if |series| >= 2 then series[|series| - 1] - series[0] else 0.0
  }

  method BuildTrend(period: Period, created: int, today: int, byDay: Snapshots) returns (t: Trend)
    ensures IsTrend(byDay, PeriodStart(period, created, today), today, t)
    ensures t.delta == if |t.series| >= 2 then t.series[|t.series| - 1] - t.series[0] else 0.0
  {
    var since := PeriodStart(period, created, today);
    var series := ForwardFillSeries(since, today, Since(byDay, since));
    OnlyRowsSinceMatter(byDay, since, today, series);
    var delta := 0.0;
    if |series| >= 2 {
      delta := series[|series| - 1] - series[0];
    }
    return Trend(series, delta);
  }

  lemma FilledIsNoLonger(byDay: Snapshots, since: int, today: int, series: seq<real>)
    requires since <= today && IsFilled(byDay, since, today, series)
    ensures |series| <= today - since + 1
  {
  }

  /** A series spans its whole period exactly when the first day has a snapshot. */
  lemma FullExactlyWhen(byDay: Snapshots, since: int, today: int, series: seq<real>)
    requires since <= today && IsFilled(byDay, since, today, series)
    ensures |series| == today - since + 1 <==> since in byDay
  {
    if since in byDay {
      var first :| FilledFrom(byDay, since, today, first, series);
      assert first == since;
    }
  }

  /**
   The periods: a week is the 7 days up to today, a month the 30, and all is
   everything since the creation day, or today if that lies ahead.
   */
  lemma PeriodsSpan(byDay: Snapshots, period: Period, created: int, today: int, t: Trend)
    requires IsTrend(byDay, PeriodStart(period, created, today), today, t)
    ensures var days := match period
                        case Week => 7
                        case Month => 30
                        case All => if created <= today then today - created + 1 else 1;
            |t.series| <= days && (|t.series| == days <==> today - days + 1 in byDay)
  {
    var since := PeriodStart(period, created, today);
    FilledIsNoLonger(byDay, since, today, t.series);
    FullExactlyWhen(byDay, since, today, t.series);
  }

  lemma ChangeOfSuffix(s: seq<real>, t: seq<real>)
    requires |t| <= |s| && t == s[|s| - |t|..]
    ensures t != [] ==> Change(t) == s[|s| - 1] - s[|s| - |t|]
  {
  }

  lemma LaterTrend(byDay: Snapshots, since: int, later: int, today: int, s: Trend, t: Trend)
    requires since <= later && IsTrend(byDay, since, today, s) && IsTrend(byDay, later, today, t)
    ensures |t.series| <= |s.series| && t.series == s.series[|s.series| - |t.series|..]
    ensures t.series != [] ==> t.delta == s.series[|s.series| - 1] - s.series[|s.series| - |t.series|]
  {
    LaterStartIsSuffix(byDay, since, later, today, s.series, t.series);
    ChangeOfSuffix(s.series, t.series);
  }

  /**
   The week's series ends the month's, and its delta is the change over that
   part of the month's.
   */
  lemma WeekEndsMonth(byDay: Snapshots, created: int, today: int, week: Trend, month: Trend)
    requires IsTrend(byDay, PeriodStart(Week, created, today), today, week)
    requires IsTrend(byDay, PeriodStart(Month, created, today), today, month)
    ensures |week.series| <= |month.series| && week.series == month.series[|month.series| - |week.series|..]
    ensures |week.series| <= 7 && |month.series| <= 30
    ensures week.series != [] ==>
              week.delta == month.series[|month.series| - 1] - month.series[|month.series| - |week.series|]
  {
    LaterTrend(byDay, PeriodStart(Month, created, today), PeriodStart(Week, created, today), today, month, week);
    PeriodsSpan(byDay, Week, created, today, week);
    PeriodsSpan(byDay, Month, created, today, month);
  }
}
