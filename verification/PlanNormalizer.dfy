/**
 Cleaning a model-written revision plan: dates outside the window dropped, card
 IDs restricted and deduplicated over the whole plan, missing days filled in.
 Calendar dates are day numbers; a date text that does not parse has none.
 */
module PlanNormalizer {
  import opened Basics

  datatype DateText = Date(day: int) | Malformed(text: string)

  datatype Day = Day(date: DateText, primary: seq<int>, cross: seq<int>, deeper: seq<int>)

  /** The window and the three allowed sets. */
  datatype Rules = Rules(start: int, end: int, primary: set<int>, cross: set<int>, deeper: set<int>)

  predicate InRange(r: Rules, d: Day) {
    d.date.Date? && r.start <= d.date.day <= r.end
  }

  // ----- what each step computes -----

  function IdSet(ids: seq<int>): set<int> {
    set i | 0 <= i < |ids| :: ids[i]
  }

  /** The allowed IDs of `ids` not seen before, each at its first occurrence. */
  function Kept(ids: seq<int>, allowed: set<int>, seen: set<int>): seq<int>
    decreases |ids|
  {
    if ids == [] then []
    else
      var before, x := Kept(ids[..|ids| - 1], allowed, seen), ids[|ids| - 1];
      if x in allowed && x !in seen && x !in before then before + [x] else before
  }

  function Cleaned(r: Rules, d: Day, seen: set<int>): Day {
    var p := Kept(d.primary, r.primary, seen);
    var c := Kept(d.cross, r.cross, seen + IdSet(p));
    var e := Kept(d.deeper, r.deeper, seen + IdSet(p) + IdSet(c));
    Day(d.date, p, c, e)
  }

  function DayIds(d: Day): set<int> {
    IdSet(d.primary) + IdSet(d.cross) + IdSet(d.deeper)
  }

  /** The IDs an in-range day lists where they are allowed. */
  function Listed(r: Rules, d: Day): set<int> {
    if InRange(r, d)
    then IdSet(d.primary) * r.primary + IdSet(d.cross) * r.cross + IdSet(d.deeper) * r.deeper
    else {}
  }

  function AllListed(r: Rules, days: seq<Day>): set<int>
    decreases |days|
  {
    if days == [] then {} else AllListed(r, days[..|days| - 1]) + Listed(r, days[|days| - 1])
  }

  /** Day `j` as it is cleaned after the days before it. */
  function CleanedAt(r: Rules, days: seq<Day>, j: nat): Day
    requires j < |days|
  {
    Cleaned(r, days[j], AllListed(r, days[..j]))
  }

  /** A later day of the same date replaces an earlier one. */
  function ByDate(r: Rules, days: seq<Day>): map<int, Day>
    decreases |days|
  {
    if days == [] then map[]
    else
      var before, d := days[..|days| - 1], days[|days| - 1];
      if InRange(r, d) then ByDate(r, before)[d.date.day := Cleaned(r, d, AllListed(r, before))] else ByDate(r, before)
  }

  function DayFor(byDate: map<int, Day>, day: int): Day {
    if day in byDate then byDate[day] else Day(Date(day), [], [], [])
  }

  function Filled(byDate: map<int, Day>, start: int, end: int): seq<Day> {
    if end < start then [] else seq(end - start + 1, i => DayFor(byDate, start + i))
  }

  function Normalized(r: Rules, days: seq<Day>): seq<Day> {
    Filled(ByDate(r, days), r.start, r.end)
  }

  // ----- the loops -----

  lemma IdSetSnoc(ids: seq<int>, x: int)
    ensures IdSet(ids + [x]) == IdSet(ids) + {x}
  {
    assert (ids + [x])[|ids|] == x;
    assert forall i | 0 <= i < |ids| :: (ids + [x])[i] == ids[i];
  }

  method FilterAllowed(ids: seq<int>, allowed: set<int>, seen: set<int>) returns (out: seq<int>, seen': set<int>)
    ensures out == Kept(ids, allowed, seen)
    ensures seen' == seen + IdSet(out)
    ensures exists at :: StandsAt(out, ids, at) && AreFirst(ids, allowed, seen, at)
    ensures forall x :: x in seen' <==> x in seen || x in out
  {
    var at := KeptStand(ids, allowed, seen);
    out, seen' := [], seen;
    for i := 0 to |ids|
      invariant out == Kept(ids[..i], allowed, seen)
      invariant seen' == seen + IdSet(out)
    {
      var id := ids[i];
      assert ids[..i + 1][..i] == ids[..i];
      assert id in IdSet(out) <==> id in out;
      if id !in allowed || id in seen' {
        continue;
      }
      IdSetSnoc(out, id);
      seen' := seen' + {id};
      out := out + [id];
    }
    assert ids[..|ids|] == ids;
  }

  method CleanDay(r: Rules, d: Day, seen: set<int>) returns (clean: Day, ok: bool, seen': set<int>)
    ensures ok <==> InRange(r, d)
    ensures ok ==> clean == Cleaned(r, d, seen) && seen' == seen + DayIds(clean)
    ensures !ok ==> seen' == seen
    ensures ok <==> d.date.Date? && r.start <= d.date.day <= r.end
    ensures ok ==> clean.date == d.date
    ensures ok ==> forall x ::
              && (x in clean.primary <==> x in d.primary && x in r.primary && x !in seen)
              && (x in clean.cross <==>
                    x in d.cross && x in r.cross && x !in seen && !(x in d.primary && x in r.primary))
              && (x in clean.deeper <==>
                    x in d.deeper && x in r.deeper && x !in seen
                    && !(x in d.primary && x in r.primary) && !(x in d.cross && x in r.cross))
  {
    forall x {
      CleanedLists(r, d, seen, x);
    }
    if d.date.Malformed? || d.date.day < r.start || d.date.day > r.end {
      return Day(d.date, [], [], []), false, seen;
    }
    var p, seen1 := FilterAllowed(d.primary, r.primary, seen);
    var c, seen2 := FilterAllowed(d.cross, r.cross, seen1);
    var e, seen3 := FilterAllowed(d.deeper, r.deeper, seen2);
    return Day(d.date, p, c, e), true, seen3;
  }

  method FillRange(byDate: map<int, Day>, start: int, end: int) returns (out: seq<Day>)
    ensures out == Filled(byDate, start, end)
  {
    out := [];
    if end < start {
      return;
    }
    var d := start;
    while d <= end
      invariant start <= d <= end + 1
      invariant |out| == d - start && forall i | 0 <= i < |out| :: out[i] == DayFor(byDate, start + i)
    {
      out := out + [if d in byDate then byDate[d] else Day(Date(d), [], [], [])];
      d := d + 1;
    }
  }

  method NormalizeDays(r: Rules, days: seq<Day>) returns (out: seq<Day>)
    ensures out == Normalized(r, days)
  {
    var seen: set<int> := {};
    var byDate: map<int, Day> := map[];
    for i := 0 to |days|
      invariant seen == AllListed(r, days[..i]) && byDate == ByDate(r, days[..i])
    {
      var clean, ok, seen' := CleanDay(r, days[i], seen);
      assert days[..i + 1][..i] == days[..i];
      if ok {
        CleanedIds(r, days[i], seen);
        byDate := byDate[clean.date.day := clean];
      }
      seen := seen';
    }
    assert days[..|days|] == days;
    out := FillRange(byDate, r.start, r.end);
  }

  // ----- one list -----

  predicate Distinct(ids: seq<int>) {
    forall i, j | 0 <= i < j < |ids| :: ids[i] != ids[j]
  }

  /** `a` can be obtained from `b` by leaving elements out. */
  predicate Subsequence(a: seq<int>, b: seq<int>)
    decreases |b|
  {
    if b == [] then a == []
    else
      || Subsequence(a, b[..|b| - 1])
      || (a != [] && a[|a| - 1] == b[|b| - 1] && Subsequence(a[..|a| - 1], b[..|b| - 1]))
  }

  lemma {:induction false} KeptProperties(ids: seq<int>, allowed: set<int>, seen: set<int>)
    ensures IdSet(Kept(ids, allowed, seen)) == IdSet(ids) * allowed - seen
    ensures Distinct(Kept(ids, allowed, seen))
    ensures Subsequence(Kept(ids, allowed, seen), ids)
    decreases |ids|
  {
    if ids != [] {
      var init, x := ids[..|ids| - 1], ids[|ids| - 1];
      var before := Kept(init, allowed, seen);
      KeptProperties(init, allowed, seen);
      IdSetSnoc(init, x);
      IdSetSnoc(before, x);
      assert init + [x] == ids;
      assert x in IdSet(before) <==> x in before;
      assert (before + [x])[..|before|] == before;
    }
  }

  lemma {:induction false} KeepsAll(ids: seq<int>, allowed: set<int>, seen: set<int>)
    requires Distinct(ids) && IdSet(ids) <= allowed && IdSet(ids) !! seen
    ensures Kept(ids, allowed, seen) == ids
    decreases |ids|
  {
    if ids != [] {
      var init, x := ids[..|ids| - 1], ids[|ids| - 1];
      assert init + [x] == ids;
      IdSetSnoc(init, x);
      KeepsAll(init, allowed, seen);
    }
  }

  /** The IDs kept are at the positions of the allowed, unseen first occurrences, in order. */
  lemma {:induction false} KeptStand(ids: seq<int>, allowed: set<int>, seen: set<int>) returns (at: seq<nat>)
    ensures StandsAt(Kept(ids, allowed, seen), ids, at) && AreFirst(ids, allowed, seen, at)
    decreases |ids|
  {
    at := [];
    if ids != [] {
      var init, x := ids[..|ids| - 1], ids[|ids| - 1];
      assert init + [x] == ids;
      at := KeptStand(init, allowed, seen);
      KeptProperties(init, allowed, seen);
      InIdSet(Kept(init, allowed, seen), x);
      InIdSet(init, x);
      StandsLonger(Kept(init, allowed, seen), init, at, x);
      AreFirstSnoc(init, x, allowed, seen, at);
      at := if x in allowed && x !in seen && x !in init then at + [|init|] else at;
    }
  }

  lemma InIdSet(ids: seq<int>, x: int)
    ensures x in IdSet(ids) <==> x in ids
  {
  }

  /** `at` are the positions of the first occurrences of allowed, unseen IDs. */
  ghost predicate AreFirst(ids: seq<int>, allowed: set<int>, seen: set<int>, at: seq<nat>) {
    forall i | 0 <= i < |ids| :: i in at <==> ids[i] in allowed && ids[i] !in seen && ids[i] !in ids[..i]
  }

  lemma AreFirstSnoc(ids: seq<int>, x: int, allowed: set<int>, seen: set<int>, at: seq<nat>)
    requires AreFirst(ids, allowed, seen, at) && forall k | 0 <= k < |at| :: at[k] < |ids|
    ensures AreFirst(ids + [x], allowed, seen, if x in allowed && x !in seen && x !in ids then at + [|ids|] else at)
  {
    var all := ids + [x];
    assert |ids| !in at;
    forall i | 0 <= i < |all|
      ensures all[..i] == ids[..i]
    {
    }
    assert ids[..|ids|] == ids;
  }

  // ----- one day -----

  lemma CleanedIds(r: Rules, d: Day, seen: set<int>)
    requires InRange(r, d)
    ensures DayIds(Cleaned(r, d, seen)) == Listed(r, d) - seen
  {
    var p := Kept(d.primary, r.primary, seen);
    var c := Kept(d.cross, r.cross, seen + IdSet(p));
    KeptProperties(d.primary, r.primary, seen);
    KeptProperties(d.cross, r.cross, seen + IdSet(p));
    KeptProperties(d.deeper, r.deeper, seen + IdSet(p) + IdSet(c));
  }

  /** Which list an ID that the day lists ends in: the first of the three in which it is listed where allowed. */
  lemma CleanedLists(r: Rules, d: Day, seen: set<int>, x: int)
    ensures var clean := Cleaned(r, d, seen);
            && (x in clean.primary <==> x in d.primary && x in r.primary && x !in seen)
            && (x in clean.cross <==>
                  x in d.cross && x in r.cross && x !in seen && !(x in d.primary && x in r.primary))
            && (x in clean.deeper <==>
                  x in d.deeper && x in r.deeper && x !in seen
                  && !(x in d.primary && x in r.primary) && !(x in d.cross && x in r.cross))
  {
    var p := Kept(d.primary, r.primary, seen);
    var c := Kept(d.cross, r.cross, seen + IdSet(p));
    KeptMembers(d.primary, r.primary, seen, x);
    KeptMembers(d.cross, r.cross, seen + IdSet(p), x);
    KeptMembers(d.deeper, r.deeper, seen + IdSet(p) + IdSet(c), x);
    InIdSet(p, x);
    InIdSet(c, x);
  }

  lemma KeptMembers(ids: seq<int>, allowed: set<int>, seen: set<int>, x: int)
    ensures x in Kept(ids, allowed, seen) <==> x in ids && x in allowed && x !in seen
  {
    KeptProperties(ids, allowed, seen);
    InIdSet(Kept(ids, allowed, seen), x);
    InIdSet(ids, x);
  }

  /** Allowed IDs only, none twice in the day's three lists. */
  ghost predicate Clean(r: Rules, d: Day) {
    && IdSet(d.primary) <= r.primary && IdSet(d.cross) <= r.cross && IdSet(d.deeper) <= r.deeper
    && Distinct(d.primary) && Distinct(d.cross) && Distinct(d.deeper)
    && IdSet(d.primary) !! IdSet(d.cross) && (IdSet(d.primary) + IdSet(d.cross)) !! IdSet(d.deeper)
  }

  ghost predicate DrawnFrom(d: Day, from: Day) {
    && d.date == from.date
    && Subsequence(d.primary, from.primary) && Subsequence(d.cross, from.cross) && Subsequence(d.deeper, from.deeper)
  }

  lemma CleanedIsClean(r: Rules, d: Day, seen: set<int>)
    ensures Clean(r, Cleaned(r, d, seen)) && DrawnFrom(Cleaned(r, d, seen), d)
    ensures DayIds(Cleaned(r, d, seen)) !! seen
  {
    var p := Kept(d.primary, r.primary, seen);
    var c := Kept(d.cross, r.cross, seen + IdSet(p));
    KeptProperties(d.primary, r.primary, seen);
    KeptProperties(d.cross, r.cross, seen + IdSet(p));
    KeptProperties(d.deeper, r.deeper, seen + IdSet(p) + IdSet(c));
  }

  lemma CleaningCleanDay(r: Rules, d: Day, seen: set<int>)
    requires Clean(r, d) && DayIds(d) !! seen
    ensures Cleaned(r, d, seen) == d
  {
    KeepsAll(d.primary, r.primary, seen);
    KeepsAll(d.cross, r.cross, seen + IdSet(d.primary));
    KeepsAll(d.deeper, r.deeper, seen + IdSet(d.primary) + IdSet(d.cross));
  }

  // ----- the whole plan -----

  predicate DatedAt(r: Rules, days: seq<Day>, j: nat, day: int) {
    j < |days| && InRange(r, days[j]) && days[j].date.day == day
  }

  /** Day `j` is the last in-range one of its date. */
  ghost predicate LastOfDate(r: Rules, days: seq<Day>, j: nat, day: int) {
    DatedAt(r, days, j, day) && forall k: nat | j < k :: !DatedAt(r, days, k, day)
  }

  lemma {:induction false} ByDateHoldsLast(r: Rules, days: seq<Day>, day: int)
    ensures day in ByDate(r, days) <==> exists j: nat :: DatedAt(r, days, j, day)
    ensures day in ByDate(r, days) ==>
              exists j: nat :: LastOfDate(r, days, j, day) && ByDate(r, days)[day] == CleanedAt(r, days, j)
    decreases |days|
  {
    if days != [] {
      var before, n := days[..|days| - 1], |days| - 1;
      ByDateHoldsLast(r, before, day);
      DatedBefore(r, days, day);
      if DatedAt(r, days, n, day) {
        assert LastOfDate(r, days, n, day) && ByDate(r, days)[day] == CleanedAt(r, days, n);
      } else if day in ByDate(r, before) {
        var j: nat :| LastOfDate(r, before, j, day) && ByDate(r, before)[day] == CleanedAt(r, before, j);
        LastStaysLast(r, days, day, j);
        assert ByDate(r, days)[day] == CleanedAt(r, days, j);
      }
    }
  }

  lemma DatedBefore(r: Rules, days: seq<Day>, day: int)
    requires days != []
    ensures forall j: nat | j < |days| - 1 :: DatedAt(r, days, j, day) <==> DatedAt(r, days[..|days| - 1], j, day)
  {
  }

  lemma LastStaysLast(r: Rules, days: seq<Day>, day: int, j: nat)
    requires days != [] && LastOfDate(r, days[..|days| - 1], j, day) && !DatedAt(r, days, |days| - 1, day)
    ensures LastOfDate(r, days, j, day) && CleanedAt(r, days, j) == CleanedAt(r, days[..|days| - 1], j)
  {
    DatedBefore(r, days, day);
    assert days[..|days| - 1][..j] == days[..j];
    forall k: nat | j < k
      ensures !DatedAt(r, days, k, day)
    {
      assert !DatedAt(r, days[..|days| - 1], k, day);
    }
  }

  /** What stands at a date of the output. */
  lemma OutputDay(r: Rules, days: seq<Day>, i: nat)
    requires i < |Normalized(r, days)|
    ensures var d := Normalized(r, days)[i]; var day := r.start + i;
            || (d == Day(Date(day), [], [], []) && forall j: nat :: !DatedAt(r, days, j, day))
            || exists j: nat :: LastOfDate(r, days, j, day) && d == CleanedAt(r, days, j)
  {
    var day := r.start + i;
    ByDateHoldsLast(r, days, day);
    assert Normalized(r, days)[i] == DayFor(ByDate(r, days), day);
    if day in ByDate(r, days) {
      var j: nat :| LastOfDate(r, days, j, day) && ByDate(r, days)[day] == CleanedAt(r, days, j);
      assert Normalized(r, days)[i] == CleanedAt(r, days, j);
    }
  }

  /** Exactly one day per date of the window, in ascending order. */
  lemma OneDayPerDate(r: Rules, days: seq<Day>)
    ensures |Normalized(r, days)| == if r.end < r.start then 0 else r.end - r.start + 1
    ensures forall i | 0 <= i < |Normalized(r, days)| :: Normalized(r, days)[i].date == Date(r.start + i)
  {
    forall i: nat | i < |Normalized(r, days)|
      ensures Normalized(r, days)[i].date == Date(r.start + i)
    {
      OutputDay(r, days, i);
    }
  }

  /** Every list holds allowed IDs only and is drawn, in order, from a list of a day of that date. */
  lemma EachDayIsDrawnFromInput(r: Rules, days: seq<Day>, i: nat)
    requires i < |Normalized(r, days)|
    ensures var d := Normalized(r, days)[i];
            && Clean(r, d)
            && (DayIds(d) != {} ==> exists j: nat :: LastOfDate(r, days, j, r.start + i) && DrawnFrom(d, days[j]))
  {
    OutputDay(r, days, i);
    var d := Normalized(r, days)[i];
    if j: nat :| LastOfDate(r, days, j, r.start + i) && d == CleanedAt(r, days, j) {
      CleanedIsClean(r, days[j], AllListed(r, days[..j]));
    } else {
      assert d == Day(Date(r.start + i), [], [], []);
      assert DayIds(d) == {};
    }
  }

  lemma {:induction false} ListedStays(r: Rules, days: seq<Day>, j: nat, n: nat)
    requires j < n <= |days|
    ensures Listed(r, days[j]) <= AllListed(r, days[..n])
    decreases n
  {
    assert days[..n][..n - 1] == days[..n - 1];
    if j < n - 1 {
      ListedStays(r, days, j, n - 1);
    }
  }

  lemma {:induction false} ListedSomewhere(r: Rules, days: seq<Day>, n: nat, x: int)
    requires n <= |days| && x in AllListed(r, days[..n])
    ensures exists j: nat :: FirstListing(r, days, j, x) && j < n
    decreases n
  {
    assert days[..n][..n - 1] == days[..n - 1];
    if x in AllListed(r, days[..n - 1]) {
      ListedSomewhere(r, days, n - 1, x);
    } else {
      assert FirstListing(r, days, n - 1, x);
    }
  }

  /** `x` is first listed, where allowed and in range, on day `j`. */
  ghost predicate FirstListing(r: Rules, days: seq<Day>, j: nat, x: int) {
    j < |days| && x in Listed(r, days[j]) && x !in AllListed(r, days[..j])
  }

  lemma FirstListingIsUnique(r: Rules, days: seq<Day>, j: nat, k: nat, x: int)
    requires FirstListing(r, days, j, x) && FirstListing(r, days, k, x)
    ensures j == k
  {
    if j < k {
      ListedStays(r, days, j, k);
    } else if k < j {
      ListedStays(r, days, k, j);
    }
  }

  /** An output day holds an ID exactly when the day it was cleaned from listed it first. */
  lemma CleanedHoldsFirstListings(r: Rules, days: seq<Day>, j: nat, x: int)
    requires j < |days| && InRange(r, days[j])
    ensures x in DayIds(CleanedAt(r, days, j)) <==> FirstListing(r, days, j, x)
  {
    CleanedIds(r, days[j], AllListed(r, days[..j]));
  }

  /** Over the whole plan no card occurs twice: not in a list, not in a day, not on two days. */
  lemma NoCardTwice(r: Rules, days: seq<Day>, i: nat, k: nat)
    requires i < k < |Normalized(r, days)|
    ensures DayIds(Normalized(r, days)[i]) !! DayIds(Normalized(r, days)[k])
    ensures Clean(r, Normalized(r, days)[i])
  {
    OutputDay(r, days, i);
    OutputDay(r, days, k);
    EachDayIsDrawnFromInput(r, days, i);
    var d, e := Normalized(r, days)[i], Normalized(r, days)[k];
    forall x | x in DayIds(d) && x in DayIds(e)
      ensures false
    {
      var a: nat :| LastOfDate(r, days, a, r.start + i) && d == CleanedAt(r, days, a);
      var b: nat :| LastOfDate(r, days, b, r.start + k) && e == CleanedAt(r, days, b);
      CleanedHoldsFirstListings(r, days, a, x);
      CleanedHoldsFirstListings(r, days, b, x);
      FirstListingIsUnique(r, days, a, b, x);
    }
  }

  ghost predicate Survives(r: Rules, days: seq<Day>, x: int) {
    exists i | 0 <= i < |Normalized(r, days)| :: x in DayIds(Normalized(r, days)[i])
  }

  lemma SurvivorIsLast(r: Rules, days: seq<Day>, x: int)
    requires Survives(r, days, x)
    ensures exists j: nat :: FirstListing(r, days, j, x) && LastOfDate(r, days, j, days[j].date.day)
  {
    var i: nat :| i < |Normalized(r, days)| && x in DayIds(Normalized(r, days)[i]);
    OutputDay(r, days, i);
    var j: nat :| LastOfDate(r, days, j, r.start + i) && Normalized(r, days)[i] == CleanedAt(r, days, j);
    CleanedHoldsFirstListings(r, days, j, x);
    assert LastOfDate(r, days, j, days[j].date.day);
  }

  lemma LastSurvives(r: Rules, days: seq<Day>, x: int, j: nat)
    requires FirstListing(r, days, j, x) && LastOfDate(r, days, j, days[j].date.day)
    ensures Survives(r, days, x)
  {
    var i := days[j].date.day - r.start;
    OutputDay(r, days, i);
    CleanedHoldsFirstListings(r, days, j, x);
    var k: nat :| LastOfDate(r, days, k, r.start + i) && Normalized(r, days)[i] == CleanedAt(r, days, k);
    assert DatedAt(r, days, j, r.start + i) && DatedAt(r, days, k, r.start + i);
    assert j == k;
  }

  /** A card survives exactly when the day that first lists it is the last of its date. */
  lemma SurvivesExactlyWhen(r: Rules, days: seq<Day>, x: int)
    ensures Survives(r, days, x) <==>
            exists j: nat :: FirstListing(r, days, j, x) && LastOfDate(r, days, j, days[j].date.day)
  {
    if Survives(r, days, x) {
      SurvivorIsLast(r, days, x);
    }
    if j: nat :| FirstListing(r, days, j, x) && LastOfDate(r, days, j, days[j].date.day) {
      LastSurvives(r, days, x, j);
    }
  }

  /** With distinct dates nothing that may be kept is lost. */
  lemma DistinctDatesLoseNothing(r: Rules, days: seq<Day>, x: int)
    requires forall j, k | 0 <= j < k < |days| && InRange(r, days[j]) && InRange(r, days[k]) ::
               days[j].date != days[k].date
    ensures Survives(r, days, x) <==> x in AllListed(r, days)
  {
    SurvivesExactlyWhen(r, days, x);
    assert days[..|days|] == days;
    if x in AllListed(r, days) {
      ListedSomewhere(r, days, |days|, x);
      var j: nat :| FirstListing(r, days, j, x) && j < |days|;
      assert DatedAt(r, days, j, days[j].date.day);
      assert forall k | 0 <= k < |days| && InRange(r, days[k]) && k != j :: days[k].date != days[j].date;
      assert LastOfDate(r, days, j, days[j].date.day);
    }
    if j: nat :| FirstListing(r, days, j, x) && LastOfDate(r, days, j, days[j].date.day) {
      ListedStays(r, days, j, |days|);
    }
  }

  /** A repeated date can lose a card for good, although a day of that date lists it twice. */
  lemma RepeatedDateLosesCard(r: Rules)
    requires r.start <= r.end && 1 in r.primary
    ensures var d := Day(Date(r.start), [1], [], []); 1 in AllListed(r, [d, d]) && !Survives(r, [d, d], 1)
  {
    var d := Day(Date(r.start), [1], [], []);
    var days := [d, d];
    assert IdSet([1]) == {1} by {
      assert [1][0] == 1;
    }
    ListedStays(r, days, 0, 2);
    assert days[..2] == days;
    assert FirstListing(r, days, 0, 1) by {
      assert days[..0] == [];
    }
    SurvivesExactlyWhen(r, days, 1);
    assert DatedAt(r, days, 1, r.start);
    if Survives(r, days, 1) {
      var j: nat :| FirstListing(r, days, j, 1) && LastOfDate(r, days, j, days[j].date.day);
      FirstListingIsUnique(r, days, 0, j, 1);
      assert false;
    }
  }

  // ----- every card of the output -----

  lemma {:induction false} ListedBefore(r: Rules, days: seq<Day>, j: nat, x: int)
    requires j <= |days|
    ensures x in AllListed(r, days[..j]) <==>
            exists h | 0 <= h < j ::
              && days[h].date.Date? && r.start <= days[h].date.day <= r.end
              && ((x in days[h].primary && x in r.primary) || (x in days[h].cross && x in r.cross)
                  || (x in days[h].deeper && x in r.deeper))
    decreases j
  {
    if j > 0 {
      ListedBefore(r, days, j - 1, x);
      assert days[..j][..j - 1] == days[..j - 1];
      ListedMembers(r, days[j - 1], x);
    }
  }

  lemma ListedMembers(r: Rules, d: Day, x: int)
    ensures x in Listed(r, d) <==>
            && d.date.Date? && r.start <= d.date.day <= r.end
            && ((x in d.primary && x in r.primary) || (x in d.cross && x in r.cross)
                || (x in d.deeper && x in r.deeper))
  {
    InIdSet(d.primary, x);
    InIdSet(d.cross, x);
    InIdSet(d.deeper, x);
  }

  /** Day `j` of the input is the last dated `day`. */
  lemma LastOfDateExactlyWhen(r: Rules, days: seq<Day>, j: nat, day: int)
    requires r.start <= day <= r.end
    ensures LastOfDate(r, days, j, day) <==>
            j < |days| && days[j].date == Date(day) && forall k | j < k < |days| :: days[k].date != Date(day)
  {
    if j < |days| && days[j].date == Date(day) && forall k | j < k < |days| :: days[k].date != Date(day) {
      assert DatedAt(r, days, j, day);
    }
    if LastOfDate(r, days, j, day) {
      forall k | j < k < |days|
        ensures days[k].date != Date(day)
      {
        assert !DatedAt(r, days, k, day);
      }
    }
  }

  /**
   Every card of the output, list by list. A day of the output takes its cards
   from the last input day of its date: a card that no earlier in-range day lists
   where allowed, in the first of the three lists in which this day does.
   */
  lemma EveryCard(r: Rules, days: seq<Day>, i: nat, j: nat, x: int)
    requires i < |Normalized(r, days)| && j < |days| && days[j].date == Date(r.start + i)
    requires forall k | j < k < |days| :: days[k].date != Date(r.start + i)
    ensures var d, out := days[j], Normalized(r, days)[i];
            var listedBefore := exists h | 0 <= h < j ::
              && days[h].date.Date? && r.start <= days[h].date.day <= r.end
              && ((x in days[h].primary && x in r.primary) || (x in days[h].cross && x in r.cross)
                  || (x in days[h].deeper && x in r.deeper));
            && (x in out.primary <==> x in d.primary && x in r.primary && !listedBefore)
            && (x in out.cross <==>
                  x in d.cross && x in r.cross && !listedBefore && !(x in d.primary && x in r.primary))
            && (x in out.deeper <==>
                  x in d.deeper && x in r.deeper && !listedBefore
                  && !(x in d.primary && x in r.primary) && !(x in d.cross && x in r.cross))
  {
    OneDayPerDate(r, days);
    LastOfDateExactlyWhen(r, days, j, r.start + i);
    OnlyOneLast(r, days, i, j);
    ListedBefore(r, days, j, x);
    CleanedLists(r, days[j], AllListed(r, days[..j]), x);
  }

  lemma OnlyOneLast(r: Rules, days: seq<Day>, i: nat, j: nat)
    requires i < |Normalized(r, days)| && LastOfDate(r, days, j, r.start + i)
    ensures Normalized(r, days)[i] == CleanedAt(r, days, j)
  {
    OutputDay(r, days, i);
    var k: nat :| LastOfDate(r, days, k, r.start + i) && Normalized(r, days)[i] == CleanedAt(r, days, k);
    assert DatedAt(r, days, j, r.start + i) && DatedAt(r, days, k, r.start + i);
    assert j == k;
  }

  /** A date of the window that no input day has gets a day without cards. */
  lemma UnlistedDateIsEmpty(r: Rules, days: seq<Day>, i: nat)
    requires i < |Normalized(r, days)| && forall j | 0 <= j < |days| :: days[j].date != Date(r.start + i)
    ensures Normalized(r, days)[i] == Day(Date(r.start + i), [], [], [])
  {
    NotDated(r, days, r.start + i);
    OutputDay(r, days, i);
  }

  lemma NotDated(r: Rules, days: seq<Day>, day: int)
    requires forall j | 0 <= j < |days| :: days[j].date != Date(day)
    ensures forall j: nat :: !DatedAt(r, days, j, day)
  {
  }

  /** In every list of the output the cards stand in the order of their first occurrences in that input day's list. */
  lemma EveryListInOrder(r: Rules, days: seq<Day>, i: nat, j: nat) returns (p: seq<nat>, c: seq<nat>, e: seq<nat>)
    requires i < |Normalized(r, days)| && j < |days| && days[j].date == Date(r.start + i)
    requires forall k | j < k < |days| :: days[k].date != Date(r.start + i)
    ensures var d, out := days[j], Normalized(r, days)[i];
            && StandsAt(out.primary, d.primary, p)
            && StandsAt(out.cross, d.cross, c)
            && StandsAt(out.deeper, d.deeper, e)
            && (forall k | 0 <= k < |p| :: d.primary[p[k]] !in d.primary[..p[k]])
            && (forall k | 0 <= k < |c| :: d.cross[c[k]] !in d.cross[..c[k]])
            && (forall k | 0 <= k < |e| :: d.deeper[e[k]] !in d.deeper[..e[k]])
  {
    OneDayPerDate(r, days);
    LastOfDateExactlyWhen(r, days, j, r.start + i);
    OnlyOneLast(r, days, i, j);
    var d, seen := days[j], AllListed(r, days[..j]);
    var kp := Kept(d.primary, r.primary, seen);
    var kc := Kept(d.cross, r.cross, seen + IdSet(kp));
    p := KeptStand(d.primary, r.primary, seen);
    c := KeptStand(d.cross, r.cross, seen + IdSet(kp));
    e := KeptStand(d.deeper, r.deeper, seen + IdSet(kp) + IdSet(kc));
  }

  // ----- normalising again -----

  /** What normalising produces: a day per date, clean, no card on two days. */
  ghost predicate Normal(r: Rules, out: seq<Day>) {
    && |out| == (if r.end < r.start then 0 else r.end - r.start + 1)
    && (forall i | 0 <= i < |out| :: out[i].date == Date(r.start + i) && Clean(r, out[i]))
    && (forall i, k | 0 <= i < k < |out| :: DayIds(out[i]) !! DayIds(out[k]))
  }

  lemma NormalizedIsNormal(r: Rules, days: seq<Day>)
    ensures Normal(r, Normalized(r, days))
  {
    OneDayPerDate(r, days);
    var out := Normalized(r, days);
    forall i: nat | i < |out|
      ensures Clean(r, out[i])
    {
      EachDayIsDrawnFromInput(r, days, i);
    }
    forall i: nat, k: nat | i < k < |out|
      ensures DayIds(out[i]) !! DayIds(out[k])
    {
      NoCardTwice(r, days, i, k);
    }
  }

  lemma {:induction false} LaterDayIsUnlisted(r: Rules, out: seq<Day>, n: nat, k: nat)
    requires Normal(r, out) && n <= k < |out|
    ensures DayIds(out[k]) !! AllListed(r, out[..n])
    decreases n
  {
    if n > 0 {
      LaterDayIsUnlisted(r, out, n - 1, k);
      assert out[..n][..n - 1] == out[..n - 1];
      assert Listed(r, out[n - 1]) <= DayIds(out[n - 1]);
    }
  }

  lemma {:induction false} NormalDayStays(r: Rules, out: seq<Day>, n: nat, i: nat)
    requires Normal(r, out) && i < n <= |out|
    ensures r.start + i in ByDate(r, out[..n]) && ByDate(r, out[..n])[r.start + i] == out[i]
    decreases n
  {
    assert out[..n][..n - 1] == out[..n - 1];
    if i < n - 1 {
      NormalDayStays(r, out, n - 1, i);
    } else {
      LaterDayIsUnlisted(r, out, i, i);
      CleaningCleanDay(r, out[i], AllListed(r, out[..i]));
    }
  }

  /** Normalising its own output, under the same rules, changes nothing. */
  lemma NormalizeIsIdempotent(r: Rules, days: seq<Day>)
    ensures Normalized(r, Normalized(r, days)) == Normalized(r, days)
  {
    NormalizedIsNormal(r, days);
    var out := Normalized(r, days);
    assert out[..|out|] == out;
    forall i: nat | i < |out|
      ensures DayFor(ByDate(r, out), r.start + i) == out[i]
    {
      NormalDayStays(r, out, |out|, i);
    }
  }

  // ----- sorting -----

  predicate Ascending(days: seq<Day>) {
    forall i, k | 0 <= i < k < |days| ::
      days[i].date.Date? && days[k].date.Date? && days[i].date.day <= days[k].date.day
  }

  predicate StrictlyAscending(days: seq<Day>) {
    forall i, k | 0 <= i < k < |days| ::
      days[i].date.Date? && days[k].date.Date? && days[i].date.day < days[k].date.day
  }

  lemma SameHead(days: seq<Day>, sorted: seq<Day>)
    requires StrictlyAscending(days) && Ascending(sorted) && multiset(sorted) == multiset(days)
    requires |days| == |sorted| > 1
    ensures days[0] == sorted[0]
  {
    assert days[0] in multiset(sorted) && sorted[0] in multiset(days);
    var i :| 0 <= i < |sorted| && sorted[i] == days[0];
    var k :| 0 <= k < |days| && days[k] == sorted[0];
    if i > 0 && k > 0 {
      assert false;
    }
  }

  lemma SameSize(a: seq<Day>, b: seq<Day>)
    requires multiset(a) == multiset(b)
    ensures |a| == |b|
  {
    assert |multiset(a)| == |a| && |multiset(b)| == |b|;
  }

  lemma TailsAgree(a: seq<Day>, b: seq<Day>)
    requires a != [] && b != [] && a[0] == b[0] && multiset(a) == multiset(b)
    ensures multiset(a[1..]) == multiset(b[1..])
  {
    assert a == [a[0]] + a[1..] && b == [b[0]] + b[1..];
    assert multiset(a[1..]) == multiset(a) - multiset{a[0]};
    assert multiset(b[1..]) == multiset(b) - multiset{b[0]};
  }

  lemma {:induction false} SortedIsItself(days: seq<Day>, sorted: seq<Day>)
    requires StrictlyAscending(days) && Ascending(sorted) && multiset(sorted) == multiset(days)
    ensures sorted == days
    decreases |days|
  {
    SameSize(sorted, days);
    if |days| == 1 {
      assert sorted[0] in multiset(days);
    } else if |days| > 1 {
      SameHead(days, sorted);
      TailsAgree(sorted, days);
      SortedIsItself(days[1..], sorted[1..]);
      assert days == [days[0]] + days[1..] && sorted == [sorted[0]] + sorted[1..];
    }
  }

  /** Sorting a normalised plan by date, by any method, leaves it as it is. */
  lemma SortLeavesNormalizedAlone(r: Rules, days: seq<Day>, sorted: seq<Day>)
    requires Ascending(sorted) && multiset(sorted) == multiset(Normalized(r, days))
    ensures sorted == Normalized(r, days)
  {
    var plan := Normalized(r, days);
    assert StrictlyAscending(plan) by {
      OneDayPerDate(r, days);
    }
    SortedIsItself(plan, sorted);
  }
}
