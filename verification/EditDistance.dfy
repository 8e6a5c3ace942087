/**
 Edit distance as the length of a shortest rewriting: a script is any chain of
 single-byte edits at any positions, applied one after the other. The recurrence
 that the table of the extraction queue's change detector fills in is proved to
 be that least length.
 */
module EditDistance {
  import opened Bytes

  datatype Edit =
    | Insert(pos: nat, c: byte)
    | Delete(pos: nat)
    | Substitute(pos: nat, c: byte)

  predicate Applies(e: Edit, a: Text) {
    if e.Insert? then e.pos <= |a| else e.pos < |a|
  }

  function Apply(e: Edit, a: Text): Text
    requires Applies(e, a)
  {
    match e
    case Insert(p, c) => a[..p] + [c] + a[p..]
    case Delete(p) => a[..p] + a[p + 1..]
    case Substitute(p, c) => a[..p] + [c] + a[p + 1..]
  }

  /** The chain of edits `script`, applied first to last, turns `a` into `b`. */
  predicate Transforms(script: seq<Edit>, a: Text, b: Text)
    decreases |script|
  {
    if script == [] then a == b
    else Applies(script[0], a) && Transforms(script[1..], Apply(script[0], a), b)
  }

  /** `d` is the least number of edits that turn `a` into `b`. */
  ghost predicate IsDistance(a: Text, b: Text, d: nat) {
    && (exists script :: Transforms(script, a, b) && |script| == d)
    && (forall script :: Transforms(script, a, b) ==> d <= |script|)
  }

  function Init(a: Text): Text
    requires a != []
  {
    a[..|a| - 1]
  }

  function Last(a: Text): byte
    requires a != []
  {
    a[|a| - 1]
  }

  function Min(x: int, y: int): int {
    if x < y then x else y
  }

  function Min3(x: int, y: int, z: int): int {
    Min(x, Min(y, z))
  }

  function Abs(x: int): int {
    if x < 0 then -x else x
  }

  function Cost(x: byte, y: byte): nat {
    if x == y then 0 else 1
  }

  /** The Levenshtein recurrence on the last bytes. */
  function Lev(a: Text, b: Text): nat
    decreases |a| + |b|
  {
    if a == [] then |b|
    else if b == [] then |a|
    else Step(Lev(Init(a), b), Lev(a, Init(b)), Lev(Init(a), Init(b)), Last(a) == Last(b))
  }

  /** One cell of the table from its three neighbours. */
  function Step(above: nat, left: nat, diagonal: nat, same: bool): nat {
    Min3(above + 1, left + 1, diagonal + if same then 0 else 1)
  }

  // ----- no script is shorter than the recurrence -----

  lemma {:induction false} OneByteMore(u: Text, x: byte, b: Text)
    ensures Lev(u, b) - 1 <= Lev(u + [x], b) <= Lev(u, b) + 1
    decreases |b|
  {
    assert Init(u + [x]) == u;
    if b == [] {
    } else {
      OneByteMore(u, x, Init(b));
      if u != [] {
        OneByteLess(u, b);
      }
    }
  }

  /** Dropping the last byte of the target is one edit away too. */
  lemma {:induction false} OneByteLess(u: Text, b: Text)
    requires b != []
    ensures Lev(u, Init(b)) <= Lev(u, b) + 1
    ensures Lev(u, b) <= Lev(u, Init(b)) + 1
    decreases |u|
  {
    if u != [] {
      OneByteLess(Init(u), b);
    }
  }

  lemma {:induction false} OneInsertedByte(u: Text, x: byte, v: Text, b: Text)
    ensures Lev(u + v, b) - 1 <= Lev(u + [x] + v, b) <= Lev(u + v, b) + 1
    decreases |v| + |b|
  {
    if v == [] {
      assert u + v == u && u + [x] + v == u + [x];
      OneByteMore(u, x, b);
    } else {
      assert Init(u + v) == u + Init(v) && Last(u + v) == Last(v);
      assert Init(u + [x] + v) == u + [x] + Init(v) && Last(u + [x] + v) == Last(v);
      if b != [] {
        OneInsertedByte(u, x, Init(v), b);
        OneInsertedByte(u, x, v, Init(b));
        OneInsertedByte(u, x, Init(v), Init(b));
      }
    }
  }

  lemma CloseByNeighbours(s: Text, t: Text, b: Text)
    requires s != [] && t != [] && b != [] && Last(s) == Last(t)
    requires Lev(Init(s), b) <= Lev(Init(t), b) + 1 && Lev(s, Init(b)) <= Lev(t, Init(b)) + 1
    requires Lev(Init(s), Init(b)) <= Lev(Init(t), Init(b)) + 1
    ensures Lev(s, b) <= Lev(t, b) + 1
  {
  }

  lemma {:induction false} OneSubstitutedByte(u: Text, x: byte, y: byte, v: Text, b: Text)
    ensures Lev(u + [x] + v, b) <= Lev(u + [y] + v, b) + 1
    decreases |v| + |b|
  {
    if v == [] {
      assert u + [x] + v == u + [x] && u + [y] + v == u + [y];
      assert Init(u + [x]) == u == Init(u + [y]);
      if b != [] {
        OneSubstitutedByte(u, x, y, v, Init(b));
      }
    } else {
      assert Init(u + [x] + v) == u + [x] + Init(v) && Last(u + [x] + v) == Last(v);
      assert Init(u + [y] + v) == u + [y] + Init(v) && Last(u + [y] + v) == Last(v);
      if b != [] {
        OneSubstitutedByte(u, x, y, Init(v), b);
        OneSubstitutedByte(u, x, y, v, Init(b));
        OneSubstitutedByte(u, x, y, Init(v), Init(b));
        CloseByNeighbours(u + [x] + v, u + [y] + v, b);
      }
    }
  }

  lemma OneEdit(e: Edit, a: Text, b: Text)
    requires Applies(e, a)
    ensures Lev(a, b) <= Lev(Apply(e, a), b) + 1
  {
    match e
    case Insert(p, c) =>
      assert a == a[..p] + a[p..];
      OneInsertedByte(a[..p], c, a[p..], b);
    case Delete(p) =>
      assert a == a[..p] + [a[p]] + a[p + 1..];
      OneInsertedByte(a[..p], a[p], a[p + 1..], b);
    case Substitute(p, c) =>
      assert a == a[..p] + [a[p]] + a[p + 1..];
      OneSubstitutedByte(a[..p], a[p], c, a[p + 1..], b);
  }

  lemma {:induction false} LevOfItself(a: Text)
    ensures Lev(a, a) == 0
  {
    if a != [] {
      LevOfItself(Init(a));
    }
  }

  lemma {:induction false} NoShorterScript(script: seq<Edit>, a: Text, b: Text)
    requires Transforms(script, a, b)
    ensures Lev(a, b) <= |script|
    decreases |script|
  {
    if script == [] {
      LevOfItself(a);
    } else {
      OneEdit(script[0], a, b);
      NoShorterScript(script[1..], Apply(script[0], a), b);
    }
  }

  // ----- some script is as short as the recurrence -----

  lemma {:induction false} AppendEdit(script: seq<Edit>, a: Text, b: Text, e: Edit)
    requires Transforms(script, a, b) && Applies(e, b)
    ensures Transforms(script + [e], a, Apply(e, b))
    decreases |script|
  {
    if script == [] {
      assert ([e])[1..] == [];
    } else {
      AppendEdit(script[1..], Apply(script[0], a), b, e);
      assert (script + [e])[1..] == script[1..] + [e];
    }
  }

  lemma {:induction false} KeepLastByte(script: seq<Edit>, a: Text, b: Text, x: byte)
    requires Transforms(script, a, b)
    ensures Transforms(script, a + [x], b + [x])
    decreases |script|
  {
    if script != [] {
      var e := script[0];
      assert Apply(e, a + [x]) == Apply(e, a) + [x];
      KeepLastByte(script[1..], Apply(e, a), b, x);
    }
  }

  lemma DeleteLastFirst(rest: seq<Edit>, a: Text, b: Text) returns (script: seq<Edit>)
    requires a != [] && Transforms(rest, Init(a), b)
    ensures Transforms(script, a, b) && |script| == |rest| + 1
  {
    script := [Delete(|a| - 1)] + rest;
    assert script[1..] == rest;
    assert Apply(script[0], a) == Init(a);
  }

  lemma InsertLastAfter(before: seq<Edit>, a: Text, b: Text) returns (script: seq<Edit>)
    requires b != [] && Transforms(before, a, Init(b))
    ensures Transforms(script, a, b) && |script| == |before| + 1
  {
    var e := Insert(|b| - 1, Last(b));
    AppendEdit(before, a, Init(b), e);
    assert Apply(e, Init(b)) == b;
    script := before + [e];
  }

  lemma ReplaceLastByte(v: Text, x: byte, y: byte)
    ensures Applies(Substitute(|v|, y), v + [x])
    ensures Apply(Substitute(|v|, y), v + [x]) == v + [y]
  {
    assert (v + [x])[..|v|] == v;
    assert (v + [x])[|v| + 1..] == [];
  }

  lemma ReplaceLastAfter(before: seq<Edit>, u: Text, x: byte, v: Text, y: byte) returns (script: seq<Edit>)
    requires Transforms(before, u, v)
    ensures Transforms(script, u + [x], v + [y]) && |script| == |before| + Cost(x, y)
  {
    KeepLastByte(before, u, v, x);
    if x == y {
      script := before;
    } else {
      ReplaceLastByte(v, x, y);
      AppendEdit(before, u + [x], v + [x], Substitute(|v|, y));
      script := before + [Substitute(|v|, y)];
    }
  }

  lemma ReplaceLast(before: seq<Edit>, a: Text, b: Text) returns (script: seq<Edit>)
    requires a != [] && b != [] && Transforms(before, Init(a), Init(b))
    ensures Transforms(script, a, b) && |script| == |before| + Cost(Last(a), Last(b))
  {
    InitAndLast(a);
    InitAndLast(b);
    script := ReplaceLastAfter(before, Init(a), Last(a), Init(b), Last(b));
  }

  lemma InitAndLast(a: Text)
    requires a != []
    ensures Init(a) + [Last(a)] == a
  {
  }

  datatype Choice = DropLast | AddLast | KeepOrReplaceLast

  /** Which neighbour the recurrence took its value from. */
  lemma BestNeighbour(a: Text, b: Text) returns (choice: Choice)
    requires a != [] || b != []
    ensures match choice
            case DropLast => a != [] && Lev(a, b) == Lev(Init(a), b) + 1
            case AddLast => b != [] && Lev(a, b) == Lev(a, Init(b)) + 1
            case KeepOrReplaceLast =>
              a != [] && b != [] && Lev(a, b) == Lev(Init(a), Init(b)) + Cost(Last(a), Last(b))
  {
    if b == [] {
      choice := DropLast;
    } else if a == [] {
      choice := AddLast;
    } else if Lev(a, b) == Lev(Init(a), b) + 1 {
      choice := DropLast;
    } else if Lev(a, b) == Lev(a, Init(b)) + 1 {
      choice := AddLast;
    } else {
      choice := KeepOrReplaceLast;
    }
  }

  lemma {:induction false} ShortestScript(a: Text, b: Text) returns (script: seq<Edit>)
    ensures Transforms(script, a, b)
    ensures |script| == Lev(a, b)
    decreases |a| + |b|
  {
    if a == [] && b == [] {
      return [];
    }
    var choice := BestNeighbour(a, b);
    match choice
    case DropLast =>
      var rest := ShortestScript(Init(a), b);
      script := DeleteLastFirst(rest, a, b);
    case AddLast =>
      var before := ShortestScript(a, Init(b));
      script := InsertLastAfter(before, a, b);
    case KeepOrReplaceLast =>
      var before := ShortestScript(Init(a), Init(b));
      script := ReplaceLast(before, a, b);
  }

  /** The recurrence computes the least number of edits, over all chains of edits. */
  lemma LevIsDistance(a: Text, b: Text)
    ensures IsDistance(a, b, Lev(a, b))
  {
    var script := ShortestScript(a, b);
    forall s | Transforms(s, a, b)
      ensures Lev(a, b) <= |s|
    {
      NoShorterScript(s, a, b);
    }
  }

  lemma DistanceIsUnique(a: Text, b: Text, d: nat, e: nat)
    requires IsDistance(a, b, d) && IsDistance(a, b, e)
    ensures d == e
  {
  }

  lemma {:induction false} LevSymmetric(a: Text, b: Text)
    ensures Lev(a, b) == Lev(b, a)
    decreases |a| + |b|
  {
    if a != [] && b != [] {
      LevSymmetric(Init(a), b);
      LevSymmetric(a, Init(b));
      LevSymmetric(Init(a), Init(b));
    }
  }

  lemma {:induction false} LevAtLeastLengthGap(a: Text, b: Text)
    ensures Lev(a, b) >= Abs(|a| - |b|)
    decreases |a| + |b|
  {
    if a != [] && b != [] {
      LevAtLeastLengthGap(Init(a), b);
      LevAtLeastLengthGap(a, Init(b));
      LevAtLeastLengthGap(Init(a), Init(b));
    }
  }
}
