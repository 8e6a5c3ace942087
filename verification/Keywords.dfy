/** The keyword list a model emits: normalised, deduplicated at its heaviest, and stored per flashcard. */
module Keywords {
  import opened TextFields

  datatype Keyword = Keyword(keyword: string, weight: real)

  const MAX_BYTES := 64

  function ToLower(cc: CharClass, s: string): string {
    seq(|s|, i requires 0 <= i < |s| => cc.lower(s[i]))
  }

  function Normalize(cc: CharClass, s: string): string {
    var t := ToLower(cc, TrimSpace(cc, s));
    if t == "" then t else Join(Fields(cc, t), " ")
  }

  /** Length in bytes. */
  function Size(cc: CharClass, s: string): nat
    decreases |s|
  {
    if s == "" then 0 else Size(cc, s[..|s| - 1]) + cc.width(s[|s| - 1])
  }

  predicate Eligible(cc: CharClass, key: string) {
    key != "" && Size(cc, key) <= MAX_BYTES
  }

  // ----- normalisation -----

  lemma {:induction false} LowerOfTrim(cc: CharClass, s: string)
    requires Lawful(cc)
    ensures ToLower(cc, TrimLeft(cc, s)) == TrimLeft(cc, ToLower(cc, s))
    ensures ToLower(cc, TrimRight(cc, s)) == TrimRight(cc, ToLower(cc, s))
    decreases |s|
  {
    if s != "" {
      LowerOfTrim(cc, s[1..]);
      LowerOfTrim(cc, s[..|s| - 1]);
      assert ToLower(cc, s)[1..] == ToLower(cc, s[1..]);
      assert ToLower(cc, s)[..|s| - 1] == ToLower(cc, s[..|s| - 1]);
    }
  }

  lemma NormalFormByToLower(cc: CharClass, s: string)
    requires Lawful(cc)
    ensures Normalize(cc, s) == Join(Fields(cc, ToLower(cc, s)), " ")
    ensures Fields(cc, Normalize(cc, s)) == Fields(cc, ToLower(cc, s))
  {
    var low := ToLower(cc, s);
    LowerOfTrim(cc, TrimLeft(cc, s));
    LowerOfTrim(cc, s);
    TrimKeepsFields(cc, TrimLeft(cc, low));
    TrimKeepsFields(cc, low);
    FieldsAreWords(cc, "", low);
    FieldsOfJoin(cc, Fields(cc, low));
  }


  lemma {:induction false} FieldsKeepLower(cc: CharClass, word: string, s: string)
    requires Lawful(cc)
    ensures LowerAll(cc, FieldsFrom(cc, word, s)) == FieldsFrom(cc, ToLower(cc, word), ToLower(cc, s))
    decreases |s|
  {
    if s != "" {
      assert ToLower(cc, s)[1..] == ToLower(cc, s[1..]);
      if cc.isSpace(s[0]) {
        FieldsKeepLower(cc, "", s[1..]);
        assert ToLower(cc, "") == "";
      } else {
        FieldsKeepLower(cc, word + [s[0]], s[1..]);
        assert ToLower(cc, word + [s[0]]) == ToLower(cc, word) + [cc.lower(s[0])];
      }
    }
  }

  function LowerAll(cc: CharClass, ws: seq<string>): seq<string> {
    seq(|ws|, i requires 0 <= i < |ws| => ToLower(cc, ws[i]))
  }

  lemma {:induction false} JoinOfLower(cc: CharClass, ws: seq<string>)
    requires Lawful(cc)
    ensures ToLower(cc, Join(ws, " ")) == Join(LowerAll(cc, ws), " ")
    decreases |ws|
  {
    if |ws| > 1 {
      JoinOfLower(cc, ws[1..]);
      assert LowerAll(cc, ws)[1..] == LowerAll(cc, ws[1..]);
      var a, b := ws[0], Join(ws[1..], " ");
      assert ToLower(cc, a + " " + b) == ToLower(cc, a) + " " + ToLower(cc, b);
    }
  }

  /** The words of `low` are those of `s`, character for character in lower case. */
  ghost predicate LowerWords(cc: CharClass, low: seq<string>, ws: seq<string>) {
    && |low| == |ws|
    && forall k | 0 <= k < |ws| ::
         |low[k]| == |ws[k]| && forall i | 0 <= i < |ws[k]| :: low[k][i] == cc.lower(ws[k][i])
  }

  lemma LowerWordsAreUnique(cc: CharClass, a: seq<string>, b: seq<string>, ws: seq<string>)
    requires LowerWords(cc, a, ws) && LowerWords(cc, b, ws)
    ensures a == b
  {
    forall k | 0 <= k < |ws|
      ensures a[k] == b[k]
    {
    }
  }

  lemma FieldsInLowerCase(cc: CharClass, s: string)
    requires Lawful(cc)
    ensures LowerWords(cc, Fields(cc, ToLower(cc, s)), Fields(cc, s))
  {
    FieldsKeepLower(cc, "", s);
    assert ToLower(cc, "") == "";
    assert Fields(cc, ToLower(cc, s)) == LowerAll(cc, Fields(cc, s));
  }

  /**
   The normal form is the words joined by single spaces; its words are those of
   the keyword, as many and as long, and each character is the lower case of its own.
   */
  lemma NormalFormIsTheWords(cc: CharClass, s: string)
    requires Lawful(cc)
    ensures var ws, low := Fields(cc, s), Fields(cc, Normalize(cc, s));
            && Normalize(cc, s) == Join(low, " ")
            && |low| == |ws|
            && forall k | 0 <= k < |ws| ::
                 |low[k]| == |ws[k]| && forall i | 0 <= i < |ws[k]| :: low[k][i] == cc.lower(ws[k][i])
  {
    NormalFormByToLower(cc, s);
    FieldsInLowerCase(cc, s);
  }

  /** Two keywords fall together exactly when their words agree, up to the case of each character. */
  lemma SameKeyExactlyWhen(cc: CharClass, s: string, t: string)
    requires Lawful(cc)
    ensures var v, w := Fields(cc, s), Fields(cc, t);
            Normalize(cc, s) == Normalize(cc, t) <==>
            && |v| == |w|
            && forall k | 0 <= k < |v| ::
                 |v[k]| == |w[k]| && forall i | 0 <= i < |v[k]| :: cc.lower(v[k][i]) == cc.lower(w[k][i])
  {
    NormalFormByToLower(cc, s);
    NormalFormByToLower(cc, t);
    FieldsInLowerCase(cc, s);
    FieldsInLowerCase(cc, t);
    var v, w, low := Fields(cc, s), Fields(cc, t), Fields(cc, ToLower(cc, s));
    if LowerWords(cc, low, w) {
      LowerWordsAreUnique(cc, low, Fields(cc, ToLower(cc, t)), w);
    }
  }

  /** Texts that differ in case only have one normal form. */
  lemma CaseDoesNotMatter(cc: CharClass, s: string, t: string)
    requires Lawful(cc)
    requires |s| == |t| && forall i | 0 <= i < |s| :: cc.lower(s[i]) == cc.lower(t[i])
    ensures Normalize(cc, s) == Normalize(cc, t)
  {
    assert ToLower(cc, s) == ToLower(cc, t);
    NormalFormByToLower(cc, s);
    NormalFormByToLower(cc, t);
  }

  lemma {:induction false} JoinHasOnly(cc: CharClass, ws: seq<string>)
    requires Lawful(cc)
    requires forall k, i | 0 <= k < |ws| && 0 <= i < |ws[k]| :: cc.lower(ws[k][i]) == ws[k][i]
    ensures forall i | 0 <= i < |Join(ws, " ")| :: cc.lower(Join(ws, " ")[i]) == Join(ws, " ")[i]
    decreases |ws|
  {
    if |ws| > 1 {
      JoinHasOnly(cc, ws[1..]);
    }
  }

  /** Every character of a normal form is in lower case. */
  lemma NormalFormIsLower(cc: CharClass, s: string)
    requires Lawful(cc)
    ensures forall i | 0 <= i < |Normalize(cc, s)| :: cc.lower(Normalize(cc, s)[i]) == Normalize(cc, s)[i]
  {
    NormalFormIsTheWords(cc, s);
    JoinHasOnly(cc, Fields(cc, Normalize(cc, s)));
  }

  lemma {:induction false} SizeOfBoth(cc: CharClass, a: string, b: string)
    ensures Size(cc, a + b) == Size(cc, a) + Size(cc, b)
    decreases |b|
  {
    if b == "" {
      assert a + b == a;
    } else {
      assert (a + b)[..|a + b| - 1] == a + b[..|b| - 1];
      SizeOfBoth(cc, a, b[..|b| - 1]);
    }
  }

  /** The size of a text is the sum of its characters' byte widths. */
  lemma SizeAddsUp(cc: CharClass, a: string, c: char, b: string)
    ensures Size(cc, a + b) == Size(cc, a) + Size(cc, b)
    ensures Size(cc, "") == 0 && Size(cc, [c]) == cc.width(c)
  {
    SizeOfBoth(cc, a, b);
    assert [c][..0] == "";
  }

  /** A normalised keyword is its own normal form. */
  lemma NormalizeIsIdempotent(cc: CharClass, s: string)
    requires Lawful(cc)
    ensures Normalize(cc, Normalize(cc, s)) == Normalize(cc, s)
  {
    var low := ToLower(cc, s);
    var ws := Fields(cc, low);
    NormalFormByToLower(cc, s);
    NormalFormByToLower(cc, Normalize(cc, s));
    JoinOfLower(cc, ws);
    FieldsKeepLower(cc, "", low);
    assert ToLower(cc, low) == low;
    assert ToLower(cc, "") == "";
    FieldsAreWords(cc, "", low);
    FieldsOfJoin(cc, ws);
  }

  // ----- deduplication -----

  /** `m` maps every eligible normal form that occurs to its greatest weight, and nothing else. */
  ghost predicate IsBest(cc: CharClass, input: seq<Keyword>, m: map<string, real>) {
    && (forall i | 0 <= i < |input| && Eligible(cc, Key(cc, input[i])) ::
          Key(cc, input[i]) in m && input[i].weight <= m[Key(cc, input[i])])
    && (forall k | k in m :: Eligible(cc, k) && Attained(cc, input, k, m[k]))
  }

  ghost predicate Attained(cc: CharClass, input: seq<Keyword>, k: string, w: real) {
    exists i | 0 <= i < |input| :: Key(cc, input[i]) == k && input[i].weight == w
  }

  function Key(cc: CharClass, k: Keyword): string {
    Normalize(cc, k.keyword)
  }

  /** `out` lists the entries of `m`, each once. */
  ghost predicate Lists(out: seq<Keyword>, m: map<string, real>) {
    && (forall i | 0 <= i < |out| :: out[i].keyword in m && out[i].weight == m[out[i].keyword])
    && (forall k | k in m :: Keyword(k, m[k]) in out)
    && DistinctKeys(out)
  }

  predicate DistinctKeys(out: seq<Keyword>) {
    forall i, j | 0 <= i < j < |out| :: out[i].keyword != out[j].keyword
  }

  /** The best weights after one more keyword. */
  function Improved(cc: CharClass, m: map<string, real>, k: Keyword): map<string, real> {
    var key := Key(cc, k);
    if !Eligible(cc, key) || (key in m && k.weight <= m[key]) then m else m[key := k.weight]
  }

  lemma BestNext(cc: CharClass, input: seq<Keyword>, i: nat, m: map<string, real>)
    requires i < |input| && IsBest(cc, input[..i], m)
    ensures IsBest(cc, input[..i + 1], Improved(cc, m, input[i]))
  {
    BestSnoc(cc, input[..i], input[i], m);
    assert input[..i] + [input[i]] == input[..i + 1];
  }

  lemma BestSnoc(cc: CharClass, input: seq<Keyword>, k: Keyword, m: map<string, real>)
    requires IsBest(cc, input, m)
    ensures IsBest(cc, input + [k], Improved(cc, m, k))
  {
    var key, after, m' := Key(cc, k), input + [k], Improved(cc, m, k);
    forall x | x in m'
      ensures Eligible(cc, x) && Attained(cc, after, x, m'[x])
    {
      if x in m && m'[x] == m[x] {
        AttainedStays(cc, input, k, x, m[x]);
      } else {
        assert after[|input|] == k;
      }
    }
  }

  lemma AttainedStays(cc: CharClass, input: seq<Keyword>, k: Keyword, x: string, w: real)
    requires Attained(cc, input, x, w)
    ensures Attained(cc, input + [k], x, w)
  {
    var i :| 0 <= i < |input| && Key(cc, input[i]) == x && input[i].weight == w;
    assert (input + [k])[i] == input[i];
  }

  /** The entries of the map, in whatever order the map yields them. */
  method ListEntries(m: map<string, real>) returns (out: seq<Keyword>)
    ensures Lists(out, m)
  {
    out := [];
    var left := m.Keys;
    while left != {}
      invariant left <= m.Keys
      invariant forall i | 0 <= i < |out| :: out[i].keyword in m.Keys - left && out[i].weight == m[out[i].keyword]
      invariant forall k | k in m.Keys - left :: Keyword(k, m[k]) in out
      invariant DistinctKeys(out)
      decreases left
    {
      var k :| k in left;
      out := out + [Keyword(k, m[k])];
      left := left - {k};
    }
  }

  /** The entries of a list, as a map. */
  function Entries(out: seq<Keyword>): map<string, real>
    decreases |out|
  {
    if out == [] then map[]
    else Entries(out[..|out| - 1])[out[|out| - 1].keyword := out[|out| - 1].weight]
  }

  lemma {:induction false} EntriesOfDistinct(out: seq<Keyword>)
    requires DistinctKeys(out)
    ensures forall i | 0 <= i < |out| :: out[i].keyword in Entries(out) && Entries(out)[out[i].keyword] == out[i].weight
    ensures forall k | k in Entries(out) :: exists i | 0 <= i < |out| :: out[i].keyword == k
    decreases |out|
  {
    if out != [] {
      var before := out[..|out| - 1];
      EntriesOfDistinct(before);
      assert forall i | 0 <= i < |before| :: before[i] == out[i];
      assert out[|out| - 1] == out[|before|];
    }
  }

  lemma ListedEntries(out: seq<Keyword>, m: map<string, real>)
    requires Lists(out, m)
    ensures Entries(out) == m
  {
    EntriesOfDistinct(out);
    forall k | k in m
      ensures k in Entries(out) && Entries(out)[k] == m[k]
    {
      assert Keyword(k, m[k]) in out;
    }
  }

  method Postprocess(cc: CharClass, input: seq<Keyword>) returns (out: seq<Keyword>)
    ensures IsBest(cc, input, Entries(out)) && Lists(out, Entries(out))
  {
    var byKey: map<string, real> := map[];
    for i := 0 to |input|
      invariant IsBest(cc, input[..i], byKey)
    {
      var k := input[i];
      var clean := Normalize(cc, k.keyword);
      BestNext(cc, input, i, byKey);
      if clean == "" || Size(cc, clean) > MAX_BYTES {
        continue;
      }
      if clean !in byKey || k.weight > byKey[clean] {
        byKey := byKey[clean := k.weight];
      }
    }
    assert input[..|input|] == input;
    out := ListEntries(byKey);
    ListedEntries(out, byKey);
  }

  /** Everything in a cleaned list: a key of 1 to 64 bytes, there once, at a weight it occurs with. */
  lemma CleanedKeyword(cc: CharClass, input: seq<Keyword>, out: seq<Keyword>, a: nat)
    requires IsBest(cc, input, Entries(out)) && Lists(out, Entries(out)) && a < |out|
    ensures out[a].keyword != "" && Size(cc, out[a].keyword) <= 64
    ensures forall b | 0 <= b < |out| && b != a :: out[b].keyword != out[a].keyword
    ensures exists i | 0 <= i < |input| ::
              Normalize(cc, input[i].keyword) == out[a].keyword && input[i].weight == out[a].weight
  {
    var k := out[a].keyword;
    assert Attained(cc, input, k, Entries(out)[k]);
    var i :| 0 <= i < |input| && Key(cc, input[i]) == k && input[i].weight == out[a].weight;
    assert Normalize(cc, input[i].keyword) == k;
  }

  /** Everything that is kept: every keyword whose normal form has 1 to 64 bytes, at no less than its weight. */
  lemma EligibleKeyword(cc: CharClass, input: seq<Keyword>, out: seq<Keyword>, i: nat)
    requires IsBest(cc, input, Entries(out)) && Lists(out, Entries(out)) && i < |input|
    requires Normalize(cc, input[i].keyword) != "" && Size(cc, Normalize(cc, input[i].keyword)) <= 64
    ensures exists a | 0 <= a < |out| ::
              out[a].keyword == Normalize(cc, input[i].keyword) && input[i].weight <= out[a].weight
  {
    var key := Key(cc, input[i]);
    assert Eligible(cc, key) && key in Entries(out);
    var a :| 0 <= a < |out| && out[a] == Keyword(key, Entries(out)[key]);
    assert out[a].keyword == Normalize(cc, input[i].keyword);
  }

  /** What is kept does not depend on the order, or on repetitions, of the input. */
  lemma BestIgnoresOrder(cc: CharClass, a: seq<Keyword>, m: map<string, real>, b: seq<Keyword>, n: map<string, real>)
    requires IsBest(cc, a, m) && IsBest(cc, b, n)
    requires forall k :: k in a <==> k in b
    ensures m == n
  {
    SameEntries(cc, a, m, b, n);
    SameEntries(cc, b, n, a, m);
  }

  lemma SameEntries(cc: CharClass, a: seq<Keyword>, m: map<string, real>, b: seq<Keyword>, n: map<string, real>)
    requires IsBest(cc, a, m) && IsBest(cc, b, n)
    requires forall k :: k in a ==> k in b
    ensures forall k | k in m :: k in n && m[k] <= n[k]
  {
    forall k | k in m
      ensures k in n && m[k] <= n[k]
    {
      var i :| 0 <= i < |a| && Key(cc, a[i]) == k && a[i].weight == m[k];
      assert a[i] in a && a[i] in b;
    }
  }

  lemma ListedKeyIsNormal(cc: CharClass, input: seq<Keyword>, m: map<string, real>, k: string)
    requires Lawful(cc) && IsBest(cc, input, m) && k in m
    ensures Normalize(cc, k) == k && Eligible(cc, k)
  {
    var j :| 0 <= j < |input| && Key(cc, input[j]) == k && input[j].weight == m[k];
    NormalizeIsIdempotent(cc, input[j].keyword);
  }

  /** A list of distinct normal keys is its own best. */
  lemma DistinctListIsBest(cc: CharClass, out: seq<Keyword>, m: map<string, real>)
    requires Lists(out, m)
    requires forall k | k in m :: Normalize(cc, k) == k && Eligible(cc, k)
    ensures IsBest(cc, out, m)
  {
    forall k | k in m
      ensures Attained(cc, out, k, m[k])
    {
      assert Keyword(k, m[k]) in out;
      var i :| 0 <= i < |out| && out[i] == Keyword(k, m[k]);
      assert Key(cc, out[i]) == k;
    }
  }

  /** A second pass changes nothing. */
  lemma SecondPassChangesNothing(cc: CharClass, input: seq<Keyword>, m: map<string, real>,
                                 out: seq<Keyword>, n: map<string, real>)
    requires Lawful(cc) && IsBest(cc, input, m) && Lists(out, m) && IsBest(cc, out, n)
    ensures n == m
  {
    forall k | k in m
      ensures Normalize(cc, k) == k && Eligible(cc, k)
    {
      ListedKeyIsNormal(cc, input, m, k);
    }
    DistinctListIsBest(cc, out, m);
    BestIgnoresOrder(cc, out, n, out, m);
  }

  // ----- storage -----

  type Rows = map<(nat, string), real>

  /**
   The keyword rows, keyed by flashcard and keyword. A weight is rounded to the
   column's precision, and the rounded weight is checked to lie in [0, 1].
   */
  class KeywordTable {
    const round: real -> real
    var rows: Rows

    constructor (round: real -> real)
      ensures rows == map[] && this.round == round
    {
      this.round, rows := round, map[];
    }

    /** One insert: refused on a key that is there, or on a weight out of range. */
    method Insert(fcId: nat, k: Keyword) returns (ok: bool)
      modifies this`rows
      ensures ok <==> (fcId, k.keyword) !in old(rows) && 0.0 <= round(k.weight) <= 1.0
      ensures rows == if ok then old(rows)[(fcId, k.keyword) := round(k.weight)] else old(rows)
    {
      ok := (fcId, k.keyword) !in rows && 0.0 <= round(k.weight) <= 1.0;
      if ok {
        rows := rows[(fcId, k.keyword) := round(k.weight)];
      }
    }

    /** Delete, insert each, commit; the first insert that violates a constraint rolls everything back. */
    method ReplaceKeywords(fcId: nat, kws: seq<Keyword>) returns (stored: bool)
      modifies this`rows
      ensures stored <==> Fits(round, kws)
      ensures stored <==> (forall a, b | 0 <= a < b < |kws| :: kws[a].keyword != kws[b].keyword)
                          && forall a | 0 <= a < |kws| :: 0.0 <= round(kws[a].weight) <= 1.0
      ensures stored ==> rows == Replaced(round, old(rows), fcId, kws)
      ensures !stored ==> rows == old(rows)
    {
      var before := rows;
      rows := Others(rows, fcId);
      for i := 0 to |kws|
        invariant Fits(round, kws[..i]) && rows == Replaced(round, before, fcId, kws[..i])
      {
        HeldKey(round, before, fcId, kws[..i], kws[i].keyword);
        FitsNext(round, kws, i);
        ReplacedNext(round, before, fcId, kws, i);
        var ok := Insert(fcId, kws[i]);
        if !ok {
          FitsBefore(round, kws, i + 1);
          rows := before;
          return false;
        }
      }
      assert kws[..|kws|] == kws;
      return true;
    }
  }

  /** The list meets the table's constraints. */
  ghost predicate Fits(round: real -> real, kws: seq<Keyword>) {
    DistinctKeys(kws) && forall i | 0 <= i < |kws| :: 0.0 <= round(kws[i].weight) <= 1.0
  }

  lemma FitsNext(round: real -> real, kws: seq<Keyword>, i: nat)
    requires i < |kws| && Fits(round, kws[..i])
    ensures Fits(round, kws[..i + 1]) <==>
            0.0 <= round(kws[i].weight) <= 1.0 && forall a | 0 <= a < i :: kws[..i][a].keyword != kws[i].keyword
  {
    var next := kws[..i + 1];
    assert forall a | 0 <= a < i :: next[a] == kws[..i][a];
    assert next[i] == kws[i];
  }

  lemma FitsBefore(round: real -> real, kws: seq<Keyword>, i: nat)
    requires i <= |kws| && !Fits(round, kws[..i])
    ensures !Fits(round, kws)
  {
    assert forall a | 0 <= a < i :: kws[..i][a] == kws[a];
  }

  function Others(rows: Rows, fcId: nat): Rows {
    map r | r in rows && r.0 != fcId :: rows[r]
  }

  /** The flashcard's rows replaced by `kws`, all other rows as they were. */
  function Replaced(round: real -> real, rows: Rows, fcId: nat, kws: seq<Keyword>): Rows
    decreases |kws|
  {
    if kws == [] then Others(rows, fcId)
    else
      var k := kws[|kws| - 1];
      Replaced(round, rows, fcId, kws[..|kws| - 1])[(fcId, k.keyword) := round(k.weight)]
  }

  lemma ReplacedNext(round: real -> real, rows: Rows, fcId: nat, kws: seq<Keyword>, i: nat)
    requires i < |kws|
    ensures Replaced(round, rows, fcId, kws[..i + 1]) ==
            Replaced(round, rows, fcId, kws[..i])[(fcId, kws[i].keyword) := round(kws[i].weight)]
  {
    assert kws[..i + 1][..i] == kws[..i];
  }

  lemma {:induction false} HeldKey(round: real -> real, rows: Rows, fcId: nat, kws: seq<Keyword>, k: string)
    ensures (fcId, k) in Replaced(round, rows, fcId, kws) <==> exists a | 0 <= a < |kws| :: kws[a].keyword == k
    decreases |kws|
  {
    if kws != [] {
      var before := kws[..|kws| - 1];
      HeldKey(round, rows, fcId, before, k);
      assert forall a | 0 <= a < |before| :: before[a] == kws[a];
      assert kws[|kws| - 1] == kws[|before|];
    }
  }

  lemma {:induction false} ReplacedRows(round: real -> real, rows: Rows, fcId: nat, kws: seq<Keyword>)
    requires DistinctKeys(kws)
    ensures forall f, k | f != fcId :: (f, k) in Replaced(round, rows, fcId, kws) <==> (f, k) in rows
    ensures forall f, k | f != fcId && (f, k) in rows :: Replaced(round, rows, fcId, kws)[(f, k)] == rows[(f, k)]
    ensures forall k :: (fcId, k) in Replaced(round, rows, fcId, kws)
                        <==> exists i | 0 <= i < |kws| :: kws[i].keyword == k
    ensures forall i | 0 <= i < |kws| ::
              && (fcId, kws[i].keyword) in Replaced(round, rows, fcId, kws)
              && Replaced(round, rows, fcId, kws)[(fcId, kws[i].keyword)] == round(kws[i].weight)
    decreases |kws|
  {
    if kws != [] {
      var before := kws[..|kws| - 1];
      ReplacedRows(round, rows, fcId, before);
      assert forall i | 0 <= i < |before| :: before[i] == kws[i];
      assert kws[|kws| - 1] == kws[|before|];
    }
  }

  /** A cleaned list never meets the key conflict: it fits exactly when every best weight rounds to one in [0, 1]. */
  lemma CleanedFitsExactlyWhen(round: real -> real, out: seq<Keyword>, m: map<string, real>)
    requires Lists(out, m)
    ensures Fits(round, out) <==> forall k | k in m :: 0.0 <= round(m[k]) <= 1.0
  {
    forall k | k in m
      ensures exists i | 0 <= i < |out| :: out[i] == Keyword(k, m[k])
    {
      assert Keyword(k, m[k]) in out;
    }
  }
}
