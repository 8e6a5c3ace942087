/**
 Recording training sessions for one user, and looking at the state in between:
 the streak, the daily goal and the achievements, and what they amount to over
 any history whose sessions do not run backwards.
 */
module Streaks {
  import opened Basics

  datatype Achievement = FirstSession | Streak3 | Streak7 | Streak30 | Cards100 | Cards1000

  datatype Goal = Goal(target: int, done: int)

  datatype Stats = Stats(
    current: int,
    best: int,
    lastDay: Option<int>,
    sessions: nat,
    cards: int,
    unlocked: set<Achievement>)

  const NO_STATS := Stats(0, 0, None, 0, 0, {})

  type Goals = map<int, Goal>

  /** All rows of one user. */
  datatype Progress = Progress(stats: Stats, goals: Goals)

  /** One accepted session: its day, its cards, and the user's goal preference at the time. */
  datatype Session = Session(day: int, cards: nat, target: int)

  /** What touches the rows: a session, or a look at the state on a day with the goal preference of the moment. */
  datatype Event = Train(session: Session) | Look(on: int, preference: int)

  function NextStreakValue(current: int, lastDay: Option<int>, today: int): int {
    match lastDay
    case None => 1
    case Some(last) =>
      if last == today then (if current == 0 then 1 else current)
      else if last + 1 == today then current + 1
      else 1
  }

  function EvaluateThresholds(current: int, sessions: nat, cards: int): set<Achievement> {
    (if sessions >= 1 then {FirstSession} else {})
    + (if current >= 3 then {Streak3} else {})
    + (if current >= 7 then {Streak7} else {})
    + (if current >= 30 then {Streak30} else {})
    + (if cards >= 100 then {Cards100} else {})
    + (if cards >= 1000 then {Cards1000} else {})
  }

  /** The day's row is created by whoever needs it first. */
  function GoalEnsured(goals: Goals, day: int, target: int): Goals {
    if day in goals then goals else goals[day := Goal(target, 0)]
  }

  function GoalBumped(goals: Goals, day: int, target: int, inc: int): Goals {
    var ensured := GoalEnsured(goals, day, target);
    ensured[day := ensured[day].(done := ensured[day].done + inc)]
  }

  /** The counters after one more session. */
  function Recorded(st: Stats, s: Session): Stats {
    var current := NextStreakValue(st.current, st.lastDay, s.day);
    Stats(
      current,
      if current > st.best then current else st.best,
      Some(s.day),
      st.sessions + 1,
      st.cards + s.cards,
      st.unlocked + EvaluateThresholds(current, st.sessions + 1, st.cards + s.cards))
  }

  function Awarded(st: Stats, s: Session): set<Achievement> {
    Recorded(st, s).unlocked - st.unlocked
  }

  function After(p: Progress, e: Event): Progress {
    match e
    case Train(s) => Progress(Recorded(p.stats, s), GoalBumped(p.goals, s.day, s.target, s.cards))
    case Look(day, target) => p.(goals := GoalEnsured(p.goals, day, target))
  }

  datatype Reply = Rejected | Forbidden | Accepted(newly: set<Achievement>)

  /** The user's rows. */
  class UserProgress {
    var current: int
    var best: int
    var lastDay: Option<int>
    var goals: Goals
    var sessions: nat
    var cards: int
    var unlocked: set<Achievement>

    constructor ()
      ensures View() == Progress(NO_STATS, map[])
    {
      current, best, lastDay, goals, sessions, cards, unlocked := 0, 0, None, map[], 0, 0, {};
    }

    function View(): Progress
      reads this
    {
      Progress(Stats(current, best, lastDay, sessions, cards, unlocked), goals)
    }

    method BumpStreak(today: int)
      modifies this`current, this`best, this`lastDay
      ensures current == NextStreakValue(old(current), old(lastDay), today)
      ensures best == if current > old(best) then current else old(best)
      ensures lastDay == Some(today)
    {
      var next := NextStreakValue(current, lastDay, today);
      var longest := best;
      if next > longest {
        longest := next;
      }
      current, best, lastDay := next, longest, Some(today);
    }

    /** Ensures that the day's row exists, and reads it. */
    method DailyGoal(day: int, target: int) returns (goal: Goal)
      modifies this`goals
      ensures goals == GoalEnsured(old(goals), day, target) && goal == goals[day]
    {
      if day !in goals {
        goals := goals[day := Goal(target, 0)];
      }
      goal := goals[day];
    }

    method BumpDailyGoal(day: int, target: int, inc: int)
      modifies this`goals
      ensures goals == GoalBumped(old(goals), day, target, inc)
    {
      var goal := DailyGoal(day, target);
      goals := goals[day := goal.(done := goal.done + inc)];
    }

    /** Reading the state creates today's row. */
    method GetState(today: int, target: int) returns (streak: (int, int), goal: Goal)
      modifies this`goals
      ensures View() == After(old(View()), Look(today, target))
      ensures streak == (current, best) && goal == goals[today]
    {
      streak := (current, best);
      goal := DailyGoal(today, target);
    }

    /** Inserts each earned achievement; those already there are skipped. */
    method PersistUnlocks(earned: set<Achievement>) returns (newly: set<Achievement>)
      modifies this`unlocked
      ensures unlocked == old(unlocked) + earned && newly == earned - old(unlocked)
    {
      newly := {};
      var left := earned;
      while left != {}
        invariant left <= earned
        invariant unlocked == old(unlocked) + (earned - left)
        invariant newly == (earned - left) - old(unlocked)
        decreases left
      {
        var code :| code in left;
        if code !in unlocked {
          unlocked := unlocked + {code};
          newly := newly + {code};
        }
        left := left - {code};
      }
    }

    method RecordSession(today: int, cardCount: int, durationMs: int, mayRead: bool, target: int) returns (reply: Reply)
      modifies this
      ensures cardCount < 0 || durationMs < 0 ==> reply == Rejected
      ensures cardCount >= 0 && durationMs >= 0 && !mayRead ==> reply == Forbidden
      ensures !reply.Accepted? ==> View() == old(View())
      ensures cardCount >= 0 && durationMs >= 0 && mayRead ==>
                var s := Session(today, cardCount, target);
                && View() == After(old(View()), Train(s))
                && reply == Accepted(Awarded(old(View()).stats, s))
      ensures cardCount >= 0 && durationMs >= 0 && mayRead ==>
                && sessions == old(sessions) + 1 && cards == old(cards) + cardCount && lastDay == Some(today)
                && today in goals && goals == old(goals)[today := goals[today]]
                && goals[today].done == (if today in old(goals) then old(goals)[today].done else 0) + cardCount
                && goals[today].target == (if today in old(goals) then old(goals)[today].target else target)
                && reply == Accepted(unlocked - old(unlocked)) && old(unlocked) <= unlocked
    {
      if cardCount < 0 || durationMs < 0 {
        return Rejected;
      }
      if !mayRead {
        return Forbidden;
      }
      sessions, cards := sessions + 1, cards + cardCount;
      BumpStreak(today);
      BumpDailyGoal(today, target, cardCount);
      var newly := PersistUnlocks(EvaluateThresholds(current, sessions, cards));
      return Accepted(newly);
    }
  }

  // ----- over a history -----

  function StatsAfter(history: seq<Session>): Stats
    decreases |history|
  {
    if history == [] then NO_STATS else Recorded(StatsAfter(history[..|history| - 1]), history[|history| - 1])
  }

  predicate DaysInOrder(history: seq<Session>) {
    forall i, j | 0 <= i < j < |history| :: history[i].day <= history[j].day
  }

  predicate Studied(history: seq<Session>, day: int) {
    exists i | 0 <= i < |history| :: history[i].day == day
  }

  /** All of the `n` days up to and including `day` were studied. */
  predicate Block(history: seq<Session>, day: int, n: nat) {
    forall k | day - n < k <= day :: Studied(history, k)
  }

  /** `current` is the longest block ending on the last day. */
  ghost predicate CurrentIsLongest(history: seq<Session>, current: int)
    requires history != []
  {
    var last := history[|history| - 1].day;
    current >= 1 && Block(history, last, current) && !Studied(history, last - current)
  }

  /** `best` is the longest block anywhere. */
  ghost predicate BestIsLongest(history: seq<Session>, best: int) {
    && best >= 0
    && (exists day :: Block(history, day, best))
    && (forall day, n: nat | Block(history, day, n) :: n <= best)
  }

  lemma StudiedSnoc(history: seq<Session>, s: Session, day: int)
    ensures Studied(history + [s], day) <==> Studied(history, day) || s.day == day
  {
    var all := history + [s];
    if Studied(history, day) {
      var i :| 0 <= i < |history| && history[i].day == day;
      assert all[i].day == day;
    }
    assert all[|history|] == s;
  }

  lemma NotStudiedAfterLast(history: seq<Session>, day: int)
    requires history != [] && DaysInOrder(history) && day > history[|history| - 1].day
    ensures !Studied(history, day)
  {
  }

  lemma BlockKept(history: seq<Session>, s: Session, day: int, n: nat)
    requires Block(history, day, n)
    ensures Block(history + [s], day, n)
  {
    forall k | day - n < k <= day
      ensures Studied(history + [s], k)
    {
      StudiedSnoc(history, s, k);
    }
  }

  /** The streak of the last day, one session later. */
  lemma CurrentStep(history: seq<Session>, s: Session, current: int)
    requires history != [] && DaysInOrder(history + [s]) && CurrentIsLongest(history, current)
    ensures CurrentIsLongest(history + [s], NextStreakValue(current, Some(history[|history| - 1].day), s.day))
  {
    var all, last := history + [s], history[|history| - 1].day;
    assert all[|history| - 1] == history[|history| - 1] && all[|history|] == s;
    assert DaysInOrder(history) by {
      assert forall i | 0 <= i < |history| :: all[i] == history[i];
    }
    var next := NextStreakValue(current, Some(last), s.day);
    forall k | s.day - next < k <= s.day
      ensures Studied(all, k)
    {
      StudiedSnoc(history, s, k);
    }
    StudiedSnoc(history, s, s.day - next);
    if s.day > last + 1 {
      NotStudiedAfterLast(history, s.day - 1);
    }
  }

  /** A block that the new session makes longer ends on its day. */
  lemma BestStep(history: seq<Session>, s: Session, best: int, current: int)
    requires DaysInOrder(history + [s])
    requires BestIsLongest(history, best) && CurrentIsLongest(history + [s], current)
    ensures BestIsLongest(history + [s], if current > best then current else best)
  {
    var all := history + [s];
    assert all[|history|] == s;
    var next := if current > best then current else best;
    var d :| Block(history, d, best);
    BlockKept(history, s, d, best);
    assert Block(all, if current > best then s.day else d, next);
    forall day, n: nat | Block(all, day, n)
      ensures n <= next
    {
      LongerBlockEndsNow(history, s, day, n, best, current);
    }
  }

  lemma LongerBlockEndsNow(history: seq<Session>, s: Session, day: int, n: nat, best: int, current: int)
    requires DaysInOrder(history + [s]) && Block(history + [s], day, n)
    requires BestIsLongest(history, best) && CurrentIsLongest(history + [s], current)
    ensures n <= best || n <= current
  {
    var all := history + [s];
    assert all[|history|] == s;
    if day - n < s.day <= day {
      assert Studied(all, day);
      assert n > current ==> Studied(all, day - current);
      if day > s.day {
        NotStudiedAfterLast(all, day);
      }
    } else {
      forall k | day - n < k <= day
        ensures Studied(history, k)
      {
        StudiedSnoc(history, s, k);
      }
      assert Block(history, day, n);
    }
  }

  lemma FirstStep(s: Session)
    ensures CurrentIsLongest([s], 1)
    ensures BestIsLongest([], 0)
  {
    assert [s][0] == s;
    assert Studied([s], s.day);
    assert Block([], 0, 0);
    forall day, n: nat | Block([], day, n)
      ensures n <= 0
    {
      assert n > 0 ==> Studied([], day);
    }
  }

  lemma LastDayIsStored(history: seq<Session>)
    requires history != []
    ensures StatsAfter(history).lastDay == Some(history[|history| - 1].day)
  {
  }

  lemma InOrderBefore(history: seq<Session>, s: Session)
    requires DaysInOrder(history + [s])
    ensures DaysInOrder(history)
  {
    assert forall i | 0 <= i < |history| :: (history + [s])[i] == history[i];
  }

  lemma CurrentAfter(history: seq<Session>, s: Session)
    requires DaysInOrder(history + [s])
    requires history != [] ==> CurrentIsLongest(history, StatsAfter(history).current)
    ensures CurrentIsLongest(history + [s], StatsAfter(history + [s]).current)
  {
    assert (history + [s])[..|history|] == history;
    if history == [] {
      FirstStep(s);
      assert history + [s] == [s];
    } else {
      LastDayIsStored(history);
      CurrentStep(history, s, StatsAfter(history).current);
    }
  }

  lemma {:induction false} SessionStreaks(history: seq<Session>)
    requires DaysInOrder(history)
    ensures history != [] ==> CurrentIsLongest(history, StatsAfter(history).current)
    ensures BestIsLongest(history, StatsAfter(history).best)
    decreases |history|
  {
    if history == [] {
      FirstStep(Session(0, 0, 0));
    } else {
      var before, s := history[..|history| - 1], history[|history| - 1];
      assert before + [s] == history;
      InOrderBefore(before, s);
      SessionStreaks(before);
      CurrentAfter(before, s);
      BestStep(before, s, StatsAfter(before).best, StatsAfter(history).current);
    }
  }

  // ----- achievements -----

  /** Unlocked means reached, by the best streak and the totals. */
  ghost predicate UnlocksMatch(st: Stats) {
    && (FirstSession in st.unlocked <==> st.sessions >= 1)
    && (Streak3 in st.unlocked <==> st.best >= 3)
    && (Streak7 in st.unlocked <==> st.best >= 7)
    && (Streak30 in st.unlocked <==> st.best >= 30)
    && (Cards100 in st.unlocked <==> st.cards >= 100)
    && (Cards1000 in st.unlocked <==> st.cards >= 1000)
  }

  lemma {:induction false} SessionAchievements(history: seq<Session>)
    ensures UnlocksMatch(StatsAfter(history))
    ensures StatsAfter(history).sessions == |history| && StatsAfter(history).cards == TotalCards(history)
    decreases |history|
  {
    if history != [] {
      SessionAchievements(history[..|history| - 1]);
    }
  }

  function TotalCards(history: seq<Session>): nat
    decreases |history|
  {
    if history == [] then 0 else TotalCards(history[..|history| - 1]) + history[|history| - 1].cards
  }

  /** What session `i` newly awarded. */
  function AwardedAt(history: seq<Session>, i: nat): set<Achievement>
    requires i < |history|
  {
    Awarded(StatsAfter(history[..i]), history[i])
  }

  lemma {:induction false} UnlocksOnlyGrow(history: seq<Session>, i: nat, n: nat)
    requires i <= n <= |history|
    ensures StatsAfter(history[..i]).unlocked <= StatsAfter(history[..n]).unlocked
    decreases n
  {
    if i < n {
      assert history[..n][..n - 1] == history[..n - 1];
      UnlocksOnlyGrow(history, i, n - 1);
    }
  }

  lemma {:induction false} AwardedSomewhere(history: seq<Session>, n: nat, a: Achievement)
    requires n <= |history| && a in StatsAfter(history[..n]).unlocked
    ensures exists i: nat :: i < n && a in AwardedAt(history, i)
    decreases n
  {
    assert history[..n][..n - 1] == history[..n - 1];
    if a in StatsAfter(history[..n - 1]).unlocked {
      AwardedSomewhere(history, n - 1, a);
    } else {
      assert a in AwardedAt(history, n - 1);
    }
  }

  lemma AwardedIsUnlocked(history: seq<Session>, i: nat, n: nat, a: Achievement)
    requires i < n <= |history| && a in AwardedAt(history, i)
    ensures a in StatsAfter(history[..n]).unlocked
  {
    assert history[..i + 1][..i] == history[..i];
    assert a in StatsAfter(history[..i + 1]).unlocked;
    UnlocksOnlyGrow(history, i + 1, n);
  }

  lemma SessionAwards(history: seq<Session>, a: Achievement)
    ensures a in StatsAfter(history).unlocked <==> exists i: nat :: i < |history| && a in AwardedAt(history, i)
    ensures forall i: nat, j: nat | i < j < |history| && a in AwardedAt(history, i) :: a !in AwardedAt(history, j)
  {
    assert history[..|history|] == history;
    if a in StatsAfter(history).unlocked {
      AwardedSomewhere(history, |history|, a);
    }
    forall i: nat | i < |history| && a in AwardedAt(history, i)
      ensures a in StatsAfter(history).unlocked
    {
      AwardedIsUnlocked(history, i, |history|, a);
    }
    forall i: nat, j: nat | i < j < |history| && a in AwardedAt(history, i)
      ensures a !in AwardedAt(history, j)
    {
      AwardedIsUnlocked(history, i, j, a);
    }
  }

  // ----- sessions and looks -----

  function ProgressAfter(history: seq<Event>): Progress
    decreases |history|
  {
    if history == [] then Progress(NO_STATS, map[])
    else After(ProgressAfter(history[..|history| - 1]), history[|history| - 1])
  }

  /** The sessions of a history, in order. */
  function Sessions(history: seq<Event>): seq<Session>
    decreases |history|
  {
    if history == [] then []
    else
      var before, e := Sessions(history[..|history| - 1]), history[|history| - 1];
      if e.Train? then before + [e.session] else before
  }

  /** Looking never touches the counters. */
  lemma {:induction false} OnlySessionsCount(history: seq<Event>)
    ensures ProgressAfter(history).stats == StatsAfter(Sessions(history))
    decreases |history|
  {
    if history != [] {
      var before, e := history[..|history| - 1], history[|history| - 1];
      OnlySessionsCount(before);
      if e.Train? {
        assert (Sessions(before) + [e.session])[..|Sessions(before)|] == Sessions(before);
      }
    }
  }

  /** After every history: the current and best streak are the longest runs of consecutive studied days. */
  lemma StreaksAreLongestRuns(history: seq<Event>)
    requires forall i, j | 0 <= i < j < |Sessions(history)| :: Sessions(history)[i].day <= Sessions(history)[j].day
    ensures Sessions(history) != [] ==> CurrentIsLongest(Sessions(history), ProgressAfter(history).stats.current)
    ensures BestIsLongest(Sessions(history), ProgressAfter(history).stats.best)
  {
    OnlySessionsCount(history);
    SessionStreaks(Sessions(history));
  }

  lemma AchievementsMatchTotals(history: seq<Event>)
    ensures var st, sessions := ProgressAfter(history).stats, Sessions(history);
            && (FirstSession in st.unlocked <==> |sessions| >= 1)
            && (Streak3 in st.unlocked <==> st.best >= 3)
            && (Streak7 in st.unlocked <==> st.best >= 7)
            && (Streak30 in st.unlocked <==> st.best >= 30)
            && (Cards100 in st.unlocked <==> TotalCards(sessions) >= 100)
            && (Cards1000 in st.unlocked <==> TotalCards(sessions) >= 1000)
            && st.sessions == |sessions| && st.cards == TotalCards(sessions)
  {
    OnlySessionsCount(history);
    SessionAchievements(Sessions(history));
  }

  /** Every unlocked achievement was newly awarded by one session, and by only one. */
  lemma AwardedExactlyOnce(history: seq<Event>, a: Achievement)
    ensures var sessions := Sessions(history);
            && (a in ProgressAfter(history).stats.unlocked
                <==> exists i: nat :: i < |sessions| && a in AwardedAt(sessions, i))
            && (forall i: nat, j: nat | i < j < |sessions| && a in AwardedAt(sessions, i) ::
                  a !in AwardedAt(sessions, j))
  {
    OnlySessionsCount(history);
    SessionAwards(Sessions(history), a);
  }

  // ----- daily goals -----

  function DayOf(e: Event): int {
    match e
    case Train(s) => s.day
    case Look(day, _) => day
  }

  function PreferenceAt(e: Event): int {
    match e
    case Train(s) => s.target
    case Look(_, target) => target
  }

  /** Something happened on `day`. */
  predicate Touched(history: seq<Event>, day: int) {
    exists i | 0 <= i < |history| :: DayOf(history[i]) == day
  }

  function CardsOn(history: seq<Event>, day: int): nat
    decreases |history|
  {
    if history == [] then 0
    else
      var e := history[|history| - 1];
      CardsOn(history[..|history| - 1], day) + if e.Train? && e.session.day == day then e.session.cards else 0
  }

  lemma TouchedSnoc(before: seq<Event>, e: Event, day: int)
    ensures Touched(before + [e], day) <==> Touched(before, day) || DayOf(e) == day
  {
    var all := before + [e];
    if Touched(before, day) {
      var i :| 0 <= i < |before| && DayOf(before[i]) == day;
      assert DayOf(all[i]) == day;
    }
    assert all[|before|] == e;
  }

  /** `target` is the preference at the first event of the day. */
  ghost predicate FirstPreference(history: seq<Event>, day: int, target: int) {
    exists i | 0 <= i < |history| ::
      DayOf(history[i]) == day && !Touched(history[..i], day) && PreferenceAt(history[i]) == target
  }

  lemma FirstPreferenceStays(before: seq<Event>, e: Event, day: int, target: int)
    requires FirstPreference(before, day, target)
    ensures FirstPreference(before + [e], day, target)
  {
    var i :| 0 <= i < |before| && DayOf(before[i]) == day && !Touched(before[..i], day)
             && PreferenceAt(before[i]) == target;
    var all := before + [e];
    assert all[i] == before[i] && all[..i] == before[..i];
  }

  lemma FirstTouchDecides(before: seq<Event>, e: Event)
    requires !Touched(before, DayOf(e))
    ensures FirstPreference(before + [e], DayOf(e), PreferenceAt(e))
  {
    var all := before + [e];
    assert all[|before|] == e && all[..|before|] == before;
  }

  /**
   A day has a goal row exactly if something happened on it. The row counts the
   cards of the day's sessions, and keeps the preference of the day's first
   event, be it a session or only a look.
   */
  lemma {:induction false} GoalsCountTheDay(history: seq<Event>, day: int)
    ensures var goals := ProgressAfter(history).goals;
            && (day in goals <==> Touched(history, day))
            && (day in goals ==>
                  goals[day].done == CardsOn(history, day) && FirstPreference(history, day, goals[day].target))
            && (day !in goals ==> CardsOn(history, day) == 0)
    decreases |history|
  {
    if history != [] {
      var before, e := history[..|history| - 1], history[|history| - 1];
      assert before + [e] == history;
      GoalsCountTheDay(before, day);
      TouchedSnoc(before, e, day);
      if day in ProgressAfter(before).goals {
        FirstPreferenceStays(before, e, day, ProgressAfter(before).goals[day].target);
      } else if DayOf(e) == day {
        FirstTouchDecides(before, e);
      }
    }
  }
}
