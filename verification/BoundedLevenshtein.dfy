/**
 The change detector of the keyword queue: a two-row edit-distance table with a
 length cut-off and a row-minimum early exit, and the ratio test built on it.
 */
module BoundedLevenshtein {
  import opened Bytes
  import opened EditDistance

  // ----- what the table holds -----

  /** Row of the table for the prefix `a`: distances from `a` to every prefix of `b`. */
  ghost function Row(a: Text, b: Text): (row: seq<int>)
    ensures |row| == |b| + 1
    ensures forall j | 0 <= j <= |b| :: row[j] == Lev(a, b[..j])
  {
    seq(|b| + 1, j requires 0 <= j <= |b| => Lev(a, b[..j]))
  }

  /** Distance from `a` to the nearest prefix of `b`: the minimum of a row. */
  function NearestPrefix(a: Text, b: Text): nat
    decreases |b|
  {
    if b == [] then Lev(a, b) else Min(Lev(a, b), NearestPrefix(a, Init(b)))
  }

  lemma {:induction false} NearestPrefixIsRowMinimum(a: Text, b: Text)
    ensures forall j | 0 <= j <= |b| :: NearestPrefix(a, b) <= Lev(a, b[..j])
    ensures exists j | 0 <= j <= |b| :: NearestPrefix(a, b) == Lev(a, b[..j])
    decreases |b|
  {
    assert b[..|b|] == b;
    if b != [] {
      NearestPrefixIsRowMinimum(a, Init(b));
      SamePrefixes(b);
      var j :| 0 <= j <= |Init(b)| && NearestPrefix(a, Init(b)) == Lev(a, Init(b)[..j]);
      assert Lev(a, b[..j]) == NearestPrefix(a, Init(b));
    }
  }

  lemma SamePrefixes(b: Text)
    requires b != []
    ensures forall j | 0 <= j < |b| :: b[..j] == Init(b)[..j]
  {
  }

  /** Row minima never decrease from one row to the next. */
  lemma {:induction false} RowMinimumNeverDecreases(a: Text, x: byte, b: Text)
    ensures NearestPrefix(a, b) <= NearestPrefix(a + [x], b)
    decreases |b|
  {
    assert Init(a + [x]) == a;
    if b != [] {
      RowMinimumNeverDecreases(a, x, Init(b));
      assert NearestPrefix(a, Init(b)) <= Lev(a + [x], Init(b)) by {
        NearestPrefixIsRowMinimum(a + [x], Init(b));
        assert Init(b)[..|Init(b)|] == Init(b);
      }
      NearestPrefixIsRowMinimum(a, Init(b));
      assert Init(b)[..|Init(b)|] == Init(b);
    }
  }

  lemma {:induction false} EarlierRowMinimum(a: Text, i: nat, b: Text)
    requires i <= |a|
    ensures NearestPrefix(a[..i], b) <= NearestPrefix(a, b)
    decreases |a| - i
  {
    if i == |a| {
      assert a[..i] == a;
    } else {
      assert a[..i] + [a[i]] == a[..i + 1];
      RowMinimumNeverDecreases(a[..i], a[i], b);
      EarlierRowMinimum(a, i + 1, b);
    }
  }

  // ----- the bounded distance -----

  /**
   The distance is given up exactly when the lengths alone exceed the bound, or
   when `a` is further than the bound from every prefix of `b`.
   */
  ghost predicate GivenUp(a: Text, b: Text, bound: int) {
    Abs(|a| - |b|) > bound || NearestPrefix(a, b) > bound
  }

  ghost function Bounded(a: Text, b: Text, bound: int): int {
    if GivenUp(a, b, bound) then bound + 1 else Lev(a, b)
  }

  lemma FirstCell(u: Text, b: Text)
    ensures Row(u, b)[0] == NearestPrefix(u, b[..0]) == |u|
  {
  }

  lemma NextCell(u: Text, b: Text, j: nat, above: seq<int>, row: seq<int>)
    requires u != [] && 1 <= j <= |b| && above == Row(Init(u), b) && row == Row(u, b)
    ensures row[j] == Min3(above[j] + 1, row[j - 1] + 1, above[j - 1] + if Last(u) == b[j - 1] then 0 else 1)
    ensures NearestPrefix(u, b[..j]) == Min(row[j], NearestPrefix(u, b[..j - 1]))
  {
    assert Init(b[..j]) == b[..j - 1] && Last(b[..j]) == b[j - 1];
  }

  method FillLevRow(a: Text, b: Text, i: nat, prev: array<int>, curr: array<int>) returns (minRow: int)
    requires 1 <= i <= |a|
    requires prev != curr && curr.Length == |b| + 1
    requires prev[..] == Row(a[..i - 1], b)
    modifies curr
    ensures curr[..] == Row(a[..i], b)
    ensures minRow == NearestPrefix(a[..i], b)
  {
    ghost var u := a[..i];
    assert Init(u) == a[..i - 1] && Last(u) == a[i - 1];
    ghost var above, row := Row(Init(u), b), Row(u, b);
    FirstCell(u, b);
    curr[0] := i;
    minRow := curr[0];
    for j := 1 to |b| + 1
      invariant prev[..] == above
      invariant forall k | 0 <= k < j :: curr[k] == row[k]
      invariant minRow == NearestPrefix(u, b[..j - 1])
    {
      var cost := 1;
      if a[i - 1] == b[j - 1] {
        cost := 0;
      }
      NextCell(u, b, j, above, row);
      assert prev[j] == above[j] && prev[j - 1] == above[j - 1];
      curr[j] := Min3(prev[j] + 1, curr[j - 1] + 1, prev[j - 1] + cost);
      assert curr[j] == row[j];
      if curr[j] < minRow {
        minRow := curr[j];
      }
    }
    assert b[..|b|] == b;
  }

  method BoundedDistance(a: Text, b: Text, bound: int) returns (r: int)
    ensures r == Bounded(a, b, bound)
  {
    var la, lb := |a|, |b|;
    if Abs(la - lb) > bound {
      return bound + 1;
    }
    var prev := new int[lb + 1];
    var curr := new int[lb + 1];
    for j := 0 to lb + 1
      invariant forall k | 0 <= k < j :: prev[k] == k
    {
      prev[j] := j;
    }
    NearestPrefixIsRowMinimum([], b);
    assert b[..0] == [];
    assert a[..0] == [];
    for i := 1 to la + 1
      invariant prev != curr && prev.Length == curr.Length == lb + 1
      invariant fresh(prev) && fresh(curr)
      invariant prev[..] == Row(a[..i - 1], b)
      invariant NearestPrefix(a[..i - 1], b) <= bound
    {
      var minRow := FillLevRow(a, b, i, prev, curr);
      if minRow > bound {
        EarlierRowMinimum(a, i, b);
        return bound + 1;
      }
      prev, curr := curr, prev;
    }
    assert a[..la] == a && b[..lb] == b;
    assert prev[lb] == prev[..][lb];
    return prev[lb];
  }

  /** Both early exits are sound: what is returned never exceeds the distance, and a give-up is a true excess. */
  lemma BoundedMeetsDistance(a: Text, b: Text, bound: int, d: nat)
    requires IsDistance(a, b, d)
    ensures Min(d, bound + 1) <= Bounded(a, b, bound) <= d
    ensures d <= bound ==> Bounded(a, b, bound) == d
  {
    LevIsDistance(a, b);
    DistanceIsUnique(a, b, d, Lev(a, b));
    LevAtLeastLengthGap(a, b);
    NearestPrefixIsRowMinimum(a, b);
    assert b[..|b|] == b;
  }

  // ----- how far the result can pass the bound -----

  lemma {:induction false} LongerTarget(u: Text, b: Text, j: nat)
    requires j <= |b|
    ensures Lev(u, b) <= Lev(u, b[..j]) + |b| - j
    decreases |b|
  {
    if j < |b| {
      OneByteLess(u, b);
      LongerTarget(u, Init(b), j);
      assert Init(b)[..j] == b[..j];
    } else {
      assert b[..j] == b;
    }
  }

  /** A call that is not given up has come within the bound at some prefix, and the rest is at most twice as long. */
  lemma ExcessIsAtMostThreefold(a: Text, b: Text, bound: int)
    ensures Bounded(a, b, bound) <= if bound <= 0 then bound + 1 else 3 * bound
  {
    if !GivenUp(a, b, bound) {
      NearestPrefixIsRowMinimum(a, b);
      var j :| 0 <= j <= |b| && NearestPrefix(a, b) == Lev(a, b[..j]);
      LevAtLeastLengthGap(a, b[..j]);
      LongerTarget(a, b, j);
    }
  }

  function Repeat(c: byte, n: nat): Text {
    seq(n, i requires 0 <= i < n => c)
  }

  lemma RepeatEnd(u: Text, c: byte, n: nat)
    requires n >= 1
    ensures u + Repeat(c, n) != [] && Init(u + Repeat(c, n)) == u + Repeat(c, n - 1) && Last(u + Repeat(c, n)) == c
    ensures Repeat(c, n) != [] && Init(Repeat(c, n)) == Repeat(c, n - 1) && Last(Repeat(c, n)) == c
  {
  }

  lemma AtLeastByCost(a: Text, b: Text, k: nat)
    requires a != [] && b != [] && Last(a) != Last(b)
    requires Lev(Init(a), b) + 1 >= k && Lev(a, Init(b)) + 1 >= k && Lev(Init(a), Init(b)) + 1 >= k
    ensures Lev(a, b) >= k
  {
  }

  /** Texts without a common byte are as far apart as the longer one is long. */
  lemma {:induction false} NothingInCommon(a: Text, b: Text)
    requires forall i, j | 0 <= i < |a| && 0 <= j < |b| :: a[i] != b[j]
    ensures Lev(a, b) >= |b| && Lev(a, b) >= |a|
    decreases |a| + |b|
  {
    if a != [] && b != [] {
      NothingInCommon(Init(a), b);
      NothingInCommon(a, Init(b));
      NothingInCommon(Init(a), Init(b));
    }
  }

  const X: byte := 0x78
  const Y: byte := 0x79
  const Z: byte := 0x7A

  /** How many bytes of `a` are X. */
  function Xs(a: Text): (n: nat)
    ensures n <= |a|
    decreases |a|
  {
    if a == [] then 0 else Xs(Init(a)) + if Last(a) == X then 1 else 0
  }

  /** Every X of the source costs an edit when the target has none. */
  lemma {:induction false} EveryXCosts(a: Text, b: Text)
    requires forall j | 0 <= j < |b| :: b[j] != X
    ensures Lev(a, b) >= Xs(a)
    decreases |a| + |b|
  {
    if a != [] && b != [] {
      EveryXCosts(Init(a), b);
      EveryXCosts(a, Init(b));
      EveryXCosts(Init(a), Init(b));
    }
  }

  lemma {:induction false} XsOfRuns(n: nat, p: nat)
    ensures Xs(Repeat(X, n) + Repeat(Y, p)) == n
    decreases n + p
  {
    if p > 0 {
      RepeatEnd(Repeat(X, n), Y, p);
      XsOfRuns(n, p - 1);
    } else {
      assert Repeat(X, n) + Repeat(Y, p) == Repeat(X, n);
      if n > 0 {
        RepeatEnd([], X, n);
        XsOfRuns(n - 1, 0);
        assert Repeat(X, n - 1) + Repeat(Y, 0) == Repeat(X, n - 1);
      }
    }
  }

  /** A source of X only, against a target without any. */
  lemma OnlyXs(n: nat, b: Text)
    requires forall j | 0 <= j < |b| :: b[j] != X
    ensures Lev(Repeat(X, n) + Repeat(Y, 0), b) >= |b|
  {
    assert Repeat(X, n) + Repeat(Y, 0) == Repeat(X, n);
    NothingInCommon(Repeat(X, n), b);
  }

  /** Every X of the source and every Z of the target cost an edit each. */
  lemma {:induction false} BothRunsCost(n: nat, p: nat, q: nat)
    ensures Lev(Repeat(X, n) + Repeat(Y, p), Repeat(Y, n) + Repeat(Z, q)) >= n + q
    decreases p + q
  {
    var a, b := Repeat(X, n) + Repeat(Y, p), Repeat(Y, n) + Repeat(Z, q);
    if q == 0 {
      assert b == Repeat(Y, n);
      EveryXCosts(a, b);
      XsOfRuns(n, p);
    } else if p == 0 {
      OnlyXs(n, b);
    } else {
      RepeatEnd(Repeat(X, n), Y, p);
      RepeatEnd(Repeat(Y, n), Z, q);
      BothRunsCost(n, p - 1, q);
      BothRunsCost(n, p, q - 1);
      BothRunsCost(n, p - 1, q - 1);
      AtLeastByCost(a, b, n + q);
    }
  }

  lemma {:induction false} LeadingRunIsDeleted(n: nat, m: nat)
    ensures Lev(Repeat(X, n) + Repeat(Y, m), Repeat(Y, m)) <= n
    decreases m
  {
    if m == 0 {
      assert Repeat(X, n) + Repeat(Y, m) == Repeat(X, n);
    } else {
      RepeatEnd(Repeat(X, n), Y, m);
      RepeatEnd([], Y, m);
      LeadingRunIsDeleted(n, m - 1);
    }
  }

  /** The threefold excess is reached for every bound. */
  lemma ThreefoldExcessIsReached(bound: nat) returns (a: Text, b: Text)
    requires bound >= 1
    ensures Bounded(a, b, bound) == 3 * bound
  {
    a, b := Repeat(X, bound) + Repeat(Y, bound), Repeat(Y, bound) + Repeat(Z, 2 * bound);
    LeadingRunIsDeleted(bound, bound);
    NearestPrefixIsRowMinimum(a, b);
    assert b[..bound] == Repeat(Y, bound);
    BothRunsCost(bound, bound, 2 * bound);
    ExcessIsAtMostThreefold(a, b, bound);
  }

  /** "Above the bound, bound + 1 is returned" holds of all texts exactly when the bound is not positive. */
  lemma ExcessIsReportedExactlyWhen(bound: int)
    ensures (forall a, b :: Lev(a, b) > bound ==> Bounded(a, b, bound) == bound + 1) <==> bound <= 0
  {
    if bound >= 1 {
      var a, b := ThreefoldExcessIsReached(bound);
      BoundedMeetsDistance(a, b, bound, Lev(a, b)) by { LevIsDistance(a, b); }
    } else {
      forall a, b | Lev(a, b) > bound
        ensures Bounded(a, b, bound) == bound + 1
      {
        ExcessIsAtMostThreefold(a, b, bound);
      }
    }
  }

  // ----- the ratio test -----

  function LongerLength(a: Text, b: Text): nat {
    if |a| < |b| then |b| else |a|
  }

  function Ceil(x: real): int {
    -((-x).Floor)
  }

  function Cap(maxLen: nat): int {
    var cap := Ceil(maxLen as real * 0.10);
    if cap < 1 then 1 else cap
  }

  method LevenshteinRatio(a: Text, b: Text) returns (ratio: real)
    ensures LongerLength(a, b) == 0 ==> ratio == 0.0
    ensures LongerLength(a, b) > 0 ==>
              ratio == Bounded(a, b, Cap(LongerLength(a, b))) as real / LongerLength(a, b) as real
  {
    var maxLen := LongerLength(a, b);
    if maxLen == 0 {
      return 0.0;
    }
    var cap := Ceil(maxLen as real * 0.10);
    if cap < 1 {
      cap := 1;
    }
    var dist := BoundedDistance(a, b, cap);
    return dist as real / maxLen as real;
  }

  /** The cap is one tenth of the longer length, rounded up, and at least 1. */
  lemma CapIsOneTenth(maxLen: nat)
    ensures Cap(maxLen) >= 1 && 10 * Cap(maxLen) >= maxLen && (Cap(maxLen) > 1 ==> 10 * (Cap(maxLen) - 1) < maxLen)
  {
  }

  /** The cap cannot change which side of one tenth the ratio falls on. */
  lemma CapKeepsTheAnswer(a: Text, b: Text)
    requires LongerLength(a, b) > 0
    ensures 10 * Bounded(a, b, Cap(LongerLength(a, b))) >= LongerLength(a, b)
            <==> 10 * Lev(a, b) >= LongerLength(a, b)
  {
    LevIsDistance(a, b);
    BoundedMeetsDistance(a, b, Cap(LongerLength(a, b)), Lev(a, b));
  }

  function Combined(q: Text, a: Text): Text {
    q + [NUL] + a
  }

  /** What re-extraction is decided by, in terms of the least number of edits. */
  ghost predicate Material(o: Text, n: Text) {
    Abs(|n| - |o|) >= 20 && exists d: nat :: IsDistance(o, n, d) && 10 * d >= LongerLength(o, n)
  }

  method MaterialChange(oldQ: Text, oldA: Text, newQ: Text, newA: Text) returns (changed: bool)
    ensures changed <==> Material(Combined(oldQ, oldA), Combined(newQ, newA))
    ensures var o, n := oldQ + [0x00] + oldA, newQ + [0x00] + newA;
            changed <==>
            && (|n| - |o| >= 20 || |o| - |n| >= 20)
            && exists d: nat :: IsDistance(o, n, d) && 10 * d >= |o| && 10 * d >= |n|
  {
    var oldCombined := oldQ + [NUL] + oldA;
    var newCombined := newQ + [NUL] + newA;
    MaterialByRecurrence(oldCombined, newCombined);
    if oldCombined == newCombined {
      return false;
    }
    var lenDelta := Abs(|newCombined| - |oldCombined|);
    if lenDelta < 20 {
      return false;
    }
    var ratio := LevenshteinRatio(oldCombined, newCombined);
    RatioIsMaterial(oldCombined, newCombined, ratio);
    return ratio >= 0.10;
  }

  lemma RatioAgainstOneTenth(dist: int, maxLen: nat)
    requires maxLen > 0
    ensures dist as real / maxLen as real >= 0.10 <==> 10 * dist >= maxLen
  {
    var ratio, m := dist as real / maxLen as real, maxLen as real;
    assert ratio * m == dist as real;
    if ratio >= 0.10 {
      assert ratio * m >= 0.10 * m;
    } else {
      assert ratio * m < 0.10 * m;
    }
  }

  lemma RatioIsMaterial(o: Text, n: Text, ratio: real)
    requires LongerLength(o, n) > 0
    requires ratio == Bounded(o, n, Cap(LongerLength(o, n))) as real / LongerLength(o, n) as real
    ensures ratio >= 0.10 <==> 10 * Lev(o, n) >= LongerLength(o, n)
  {
    CapKeepsTheAnswer(o, n);
    RatioAgainstOneTenth(Bounded(o, n, Cap(LongerLength(o, n))), LongerLength(o, n));
  }

  lemma MaterialByRecurrence(o: Text, n: Text)
    ensures Material(o, n) <==> Abs(|n| - |o|) >= 20 && 10 * Lev(o, n) >= LongerLength(o, n)
  {
    LevIsDistance(o, n);
    forall d: nat | IsDistance(o, n, d)
      ensures d == Lev(o, n)
    {
      DistanceIsUnique(o, n, d, Lev(o, n));
    }
  }

  lemma MaterialSymmetric(o: Text, n: Text)
    ensures Material(o, n) <==> Material(n, o)
  {
    MaterialByRecurrence(o, n);
    MaterialByRecurrence(n, o);
    LevSymmetric(o, n);
  }

  /** Up to 200 bytes the length test alone decides. */
  lemma ShortTextsNeedOnlyTheLengthTest(o: Text, n: Text)
    requires LongerLength(o, n) <= 200
    ensures Material(o, n) <==> Abs(|n| - |o|) >= 20
  {
    MaterialByRecurrence(o, n);
    LevAtLeastLengthGap(o, n);
  }

  lemma {:induction false} DroppingASuffix(u: Text, v: Text)
    ensures Lev(u + v, u) <= |v|
    decreases |v|
  {
    if v == [] {
      assert u + v == u;
      LevOfItself(u);
    } else {
      DroppingASuffix(u, Init(v));
      assert u + v == u + Init(v) + [Last(v)];
      OneByteMore(u + Init(v), Last(v), u);
    }
  }

  /** 200 is the largest such length: past it, a 20-byte cut can fail the distance test. */
  lemma LongTextsNeedBothTests(len: nat) returns (oldA: Text, newA: Text)
    requires len > 200
    ensures |Combined([], oldA)| == len && |Combined([], oldA)| - |Combined([], newA)| == 20
    ensures !Material(Combined([], oldA), Combined([], newA))
  {
    newA := seq(len - 21, i => NUL);
    var tail: Text := seq(20, i => NUL);
    oldA := newA + tail;
    assert Combined([], oldA) == Combined([], newA) + tail;
    DroppingASuffix(Combined([], newA), tail);
    MaterialByRecurrence(Combined([], oldA), Combined([], newA));
  }
}
