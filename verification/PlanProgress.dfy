/** Progress on a revision plan: marking cards done, today's bucket, and how many past days fell behind. */
module PlanProgress {
  import opened Basics
  import opened PlanNormalizer

  /** Cards marked done, per day number. */
  type Progress = map<int, set<int>>

  const DRIFT_THRESHOLD := 2

  function DoneOn(progress: Progress, day: int): set<int> {
    if day in progress then progress[day] else {}
  }

  /** A mark is an insert; marking twice is marking once. */
  function Marked(progress: Progress, today: int, card: int): Progress {
    progress[today := DoneOn(progress, today) + {card}]
  }

  function Required(d: Day): seq<int> {
    d.primary + d.cross
  }

  /** The cards of `ids` that are done, in order. */
  function DoneCards(ids: seq<int>, done: set<int>): seq<int>
    decreases |ids|
  {
    if ids == [] then []
    else DoneCards(ids[..|ids| - 1], done) + if ids[|ids| - 1] in done then [ids[|ids| - 1]] else []
  }

  /** Fewer than half of the required cards are done. */
  predicate FellBehind(d: Day, done: set<int>) {
    2 * |DoneCards(Required(d), done)| < |Required(d)|
  }

  function DaysBehind(days: seq<Day>, progress: Progress, today: int): nat
    decreases |days|
  {
    if days == [] then 0
    else
      var d := days[|days| - 1];
      DaysBehind(days[..|days| - 1], progress, today)
      + if d.date.Date? && d.date.day < today && FellBehind(d, DoneOn(progress, d.date.day)) then 1 else 0
  }

  datatype Drift = Drift(daysBehind: nat, suggestRegen: bool)

  datatype TodayBucket = TodayBucket(day: Day, done: seq<int>, goalMet: bool)

  // ----- what is counted -----

  lemma DoneCardsSnoc(ids: seq<int>, x: int, done: set<int>)
    ensures DoneCards(ids + [x], done) == DoneCards(ids, done) + if x in done then [x] else []
  {
    assert (ids + [x])[..|ids|] == ids;
  }

  /** The indices of done cards, counted. */
  lemma {:induction false} DoneCardsCount(ids: seq<int>, done: set<int>)
    ensures |DoneCards(ids, done)| == |set i | 0 <= i < |ids| && ids[i] in done|
    decreases |ids|
  {
    if ids != [] {
      var n := |ids| - 1;
      var before := ids[..n];
      DoneCardsCount(before, done);
      var was, now := set i | 0 <= i < |before| && before[i] in done, set i | 0 <= i < |ids| && ids[i] in done;
      assert now == was + if ids[n] in done then {n} else {};
    }
  }

  /** `at` are exactly the indices of done cards. */
  ghost predicate AreDone(ids: seq<int>, done: set<int>, at: seq<nat>) {
    forall i | 0 <= i < |ids| :: i in at <==> ids[i] in done
  }

  lemma AreDoneSnoc(ids: seq<int>, x: int, done: set<int>, at: seq<nat>)
    requires AreDone(ids, done, at) && forall k | 0 <= k < |at| :: at[k] < |ids|
    ensures AreDone(ids + [x], done, if x in done then at + [|ids|] else at)
  {
    assert |ids| !in at;
  }

  /** The done cards stand at exactly the indices whose cards are done, in order. */
  lemma {:induction false} DoneCardsStand(ids: seq<int>, done: set<int>) returns (at: seq<nat>)
    ensures StandsAt(DoneCards(ids, done), ids, at) && AreDone(ids, done, at)
    decreases |ids|
  {
    at := [];
    if ids != [] {
      var before, x := ids[..|ids| - 1], ids[|ids| - 1];
      assert before + [x] == ids;
      at := DoneCardsStand(before, done);
      StandsLonger(DoneCards(before, done), before, at, x);
      AreDoneSnoc(before, x, done, at);
      at := if x in done then at + [|before|] else at;
    }
  }

  /** Day `i` is dated before today, and fewer than half of its required cards were marked that day. */
  ghost predicate Missed(days: seq<Day>, progress: Progress, today: int, i: nat)
    requires i < |days|
  {
    && days[i].date.Date? && days[i].date.day < today
    && var required := days[i].primary + days[i].cross;
       var marked := set k | 0 <= k < |required| && days[i].date.day in progress
                             && required[k] in progress[days[i].date.day];
       2 * |marked| < |required|
  }

  lemma MissedIsBehind(days: seq<Day>, progress: Progress, today: int, i: nat)
    requires i < |days|
    ensures var d := days[i];
            Missed(days, progress, today, i) <==>
            d.date.Date? && d.date.day < today && FellBehind(d, DoneOn(progress, d.date.day))
  {
    var d := days[i];
    if d.date.Date? {
      var required, done := d.primary + d.cross, DoneOn(progress, d.date.day);
      DoneCardsCount(required, done);
      assert (set k | 0 <= k < |required| && required[k] in done) ==
             set k | 0 <= k < |required| && d.date.day in progress && required[k] in progress[d.date.day];
    }
  }

  ghost function MissedDays(days: seq<Day>, progress: Progress, today: int): set<nat> {
    set i: nat | i < |days| && Missed(days, progress, today, i)
  }

  lemma MissedSnoc(days: seq<Day>, d: Day, progress: Progress, today: int)
    ensures var all := days + [d];
            MissedDays(all, progress, today) ==
            MissedDays(days, progress, today) + if Missed(all, progress, today, |days|) then {|days|} else {}
  {
    var all := days + [d];
    forall i: nat | i < |days|
      ensures Missed(all, progress, today, i) <==> Missed(days, progress, today, i)
    {
      assert all[i] == days[i];
    }
  }

  lemma {:induction false} DaysBehindCount(days: seq<Day>, progress: Progress, today: int)
    ensures DaysBehind(days, progress, today) == |MissedDays(days, progress, today)|
    decreases |days|
  {
    if days != [] {
      var before, d := days[..|days| - 1], days[|days| - 1];
      assert before + [d] == days;
      DaysBehindCount(before, progress, today);
      MissedSnoc(before, d, progress, today);
      MissedIsBehind(days, progress, today, |before|);
    }
  }

  /** The count is the number of past days of which fewer than half of the required cards were marked on the day. */
  lemma DriftCountsMissedDays(days: seq<Day>, progress: Progress, today: int)
    ensures var missed := set i: nat |
              && i < |days| && days[i].date.Date? && days[i].date.day < today
              && var required := days[i].primary + days[i].cross;
                 var marked := set k | 0 <= k < |required| && days[i].date.day in progress
                                       && required[k] in progress[days[i].date.day];
                 2 * |marked| < |required|;
            DaysBehind(days, progress, today) == |missed|
  {
    DaysBehindCount(days, progress, today);
    var missed := set i: nat |
      && i < |days| && days[i].date.Date? && days[i].date.day < today
      && var required := days[i].primary + days[i].cross;
         var marked := set k | 0 <= k < |required| && days[i].date.day in progress
                               && required[k] in progress[days[i].date.day];
         2 * |marked| < |required|;
    forall i: nat
      ensures i in missed <==> i in MissedDays(days, progress, today)
    {
    }
    assert missed == MissedDays(days, progress, today);
  }

  // ----- the loops -----

  method DayIsBehind(d: Day, done: set<int>) returns (behind: bool)
    ensures behind <==> FellBehind(d, done)
    ensures behind <==>
            var required := d.primary + d.cross;
            2 * |set k | 0 <= k < |required| && required[k] in done| < |required|
  {
    DoneCardsCount(d.primary + d.cross, done);
    var cards := d.primary + d.cross;
    if |cards| == 0 {
      return false;
    }
    var n := 0;
    for i := 0 to |cards|
      invariant n == |DoneCards(cards[..i], done)|
    {
      assert cards[..i + 1][..i] == cards[..i];
      if cards[i] in done {
        n := n + 1;
      }
    }
    assert cards[..|cards|] == cards;
    HalfAsRatio(n, |cards|);
    return (n as real / |cards| as real) < 0.5;
  }

  lemma HalfAsRatio(n: nat, len: nat)
    requires len > 0
    ensures (n as real / len as real) < 0.5 <==> 2 * n < len
  {
    RatioAgainstHalf(n as real / len as real, n as real, len as real);
  }

  lemma RatioAgainstHalf(ratio: real, x: real, m: real)
    requires m > 0.0 && ratio * m == x
    ensures ratio < 0.5 <==> 2.0 * x < m
  {
    if ratio < 0.5 {
      assert ratio * m < 0.5 * m;
    } else {
      assert ratio * m >= 0.5 * m;
    }
  }

  method CalculateDrift(days: seq<Day>, progress: Progress, today: int) returns (drift: Drift)
    ensures drift.daysBehind == DaysBehind(days, progress, today)
    ensures drift.suggestRegen <==> drift.daysBehind >= 2
  {
    var behind := 0;
    for i := 0 to |days|
      invariant behind == DaysBehind(days[..i], progress, today)
    {
      var d := days[i];
      assert days[..i + 1][..i] == days[..i];
      if d.date.Malformed? || d.date.day >= today {
        continue;
      }
      var isBehind := DayIsBehind(d, DoneOn(progress, d.date.day));
      if isBehind {
        behind := behind + 1;
      }
    }
    assert days[..|days|] == days;
    return Drift(behind, behind >= DRIFT_THRESHOLD);
  }

  method MakeTodayBucket(d: Day, doneIds: set<int>) returns (b: TodayBucket)
    ensures b.day == d && b.done == DoneCards(Required(d), doneIds)
    ensures b.goalMet <==> |Required(d)| > 0 && |b.done| >= |Required(d)|
    ensures var required := d.primary + d.cross;
            && (b.goalMet <==> required != [] && forall k | 0 <= k < |required| :: required[k] in doneIds)
            && exists at :: StandsAt(b.done, required, at) && AreDone(required, doneIds, at)
  {
    var at := DoneCardsStand(Required(d), doneIds);
    AllDoneExactlyWhen(Required(d), doneIds);
    var done: seq<int> := [];
    var required := d.primary + d.cross;
    for i := 0 to |required|
      invariant done == DoneCards(required[..i], doneIds)
    {
      assert required[..i + 1][..i] == required[..i];
      if required[i] in doneIds {
        done := done + [required[i]];
      }
    }
    assert required[..|required|] == required;
    return TodayBucket(d, done, |required| > 0 && |done| >= |required|);
  }

  method BuildToday(days: seq<Day>, progress: Progress, today: int) returns (b: TodayBucket)
    ensures (forall i | 0 <= i < |days| :: days[i].date != Date(today)) ==>
              b == TodayBucket(Day(Date(today), [], [], []), [], false)
    ensures forall i | 0 <= i < |days| && days[i].date == Date(today)
              && (forall k | 0 <= k < i :: days[k].date != Date(today)) ::
              b.day == days[i] && b.done == DoneCards(Required(days[i]), DoneOn(progress, today))
              && (b.goalMet <==> |Required(days[i])| > 0 && |b.done| >= |Required(days[i])|)
  {
    for i := 0 to |days|
      invariant forall k | 0 <= k < i :: days[k].date != Date(today)
    {
      if days[i].date == Date(today) {
        b := MakeTodayBucket(days[i], DoneOn(progress, today));
        return;
      }
    }
    return TodayBucket(Day(Date(today), [], [], []), [], false);
  }

  // ----- counting done cards -----

  lemma {:induction false} MoreDoneCountsMore(ids: seq<int>, done: set<int>, more: set<int>)
    requires done <= more
    ensures |DoneCards(ids, done)| <= |DoneCards(ids, more)| <= |ids|
    decreases |ids|
  {
    if ids != [] {
      MoreDoneCountsMore(ids[..|ids| - 1], done, more);
    }
  }

  lemma {:induction false} AllDoneExactlyWhen(ids: seq<int>, done: set<int>)
    ensures |DoneCards(ids, done)| <= |ids|
    ensures |DoneCards(ids, done)| >= |ids| <==> forall i | 0 <= i < |ids| :: ids[i] in done
    decreases |ids|
  {
    if ids != [] {
      AllDoneExactlyWhen(ids[..|ids| - 1], done);
    }
  }

  /** The goal is met exactly when there is a required card and every one is done; such a day is not behind. */
  lemma GoalMetExactlyWhen(d: Day, done: set<int>)
    ensures |Required(d)| > 0 && |DoneCards(Required(d), done)| >= |Required(d)|
            <==> Required(d) != [] && forall i | 0 <= i < |Required(d)| :: Required(d)[i] in done
    ensures |DoneCards(Required(d), done)| >= |Required(d)| ==> !FellBehind(d, done)
  {
    AllDoneExactlyWhen(Required(d), done);
  }

  // ----- drift over time -----

  /** A mark adds its card to that day's set and touches no other day. */
  lemma MarkIsAnInsert(progress: Progress, today: int, card: int)
    ensures var more := Marked(progress, today, card);
            && more.Keys == progress.Keys + {today}
            && more[today] == (if today in progress then progress[today] else {}) + {card}
            && forall day | day in progress && day != today :: more[day] == progress[day]
    ensures Marked(Marked(progress, today, card), today, card) == Marked(progress, today, card)
  {
    var more := Marked(progress, today, card);
    assert more[today] + {card} == more[today];
  }

  /** Marking more cards, on any days, never raises the count. */
  lemma {:induction false} MarkingNeverRaisesDrift(days: seq<Day>, progress: Progress, more: Progress, today: int)
    requires forall day :: DoneOn(progress, day) <= DoneOn(more, day)
    ensures DaysBehind(days, more, today) <= DaysBehind(days, progress, today)
    decreases |days|
  {
    if days != [] {
      var d := days[|days| - 1];
      MarkingNeverRaisesDrift(days[..|days| - 1], progress, more, today);
      if d.date.Date? {
        MoreDoneCountsMore(Required(d), DoneOn(progress, d.date.day), DoneOn(more, d.date.day));
      }
    }
  }

  lemma OneMarkNeverRaisesDrift(days: seq<Day>, progress: Progress, markDay: int, card: int, today: int)
    ensures DaysBehind(days, Marked(progress, markDay, card), today) <= DaysBehind(days, progress, today)
  {
    MarkingNeverRaisesDrift(days, progress, Marked(progress, markDay, card), today);
  }

  /** Time passing never lowers it. */
  lemma {:induction false} TimeNeverLowersDrift(days: seq<Day>, progress: Progress, today: int, later: int)
    requires today <= later
    ensures DaysBehind(days, progress, today) <= DaysBehind(days, progress, later)
    decreases |days|
  {
    if days != [] {
      TimeNeverLowersDrift(days[..|days| - 1], progress, today, later);
    }
  }

  /** On the day a plan is generated nothing is behind, and after `n` days at most `n` days are. */
  lemma FreshPlanDrift(r: Rules, input: seq<Day>, progress: Progress, n: nat)
    ensures DaysBehind(Normalized(r, input), progress, r.start + n) <= n
  {
    OneDayPerDate(r, input);
    DatedDrift(r, Normalized(r, input), progress, n, |Normalized(r, input)|);
    assert Normalized(r, input)[..|Normalized(r, input)|] == Normalized(r, input);
  }

  lemma {:induction false} DatedDrift(r: Rules, out: seq<Day>, progress: Progress, n: nat, k: nat)
    requires k <= |out| && forall i | 0 <= i < |out| :: out[i].date == Date(r.start + i)
    ensures DaysBehind(out[..k], progress, r.start + n) <= if k < n then k else n
    decreases k
  {
    if k > 0 {
      assert out[..k][..k - 1] == out[..k - 1];
      DatedDrift(r, out, progress, n, k - 1);
    }
  }
}
