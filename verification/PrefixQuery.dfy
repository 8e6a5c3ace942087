/** The full-text prefix query built from a user's search words. */
module PrefixQuery {
  import opened Basics
  import opened TextFields

  /** The letters and digits of a word. */
  function Alnum(cc: CharClass, w: string): string
    decreases |w|
  {
    if w == "" then ""
    else Alnum(cc, w[..|w| - 1]) + if cc.isAlnum(w[|w| - 1]) then [w[|w| - 1]] else ""
  }

  function NonEmpty(w: string): seq<string> {
    if w == "" then [] else [w]
  }

  /** The search tokens among the words `ws`. */
  function Tokens(cc: CharClass, ws: seq<string>): seq<string>
    decreases |ws|
  {
    if ws == [] then [] else Tokens(cc, ws[..|ws| - 1]) + NonEmpty(Alnum(cc, ws[|ws| - 1]))
  }

  function SearchTokens(cc: CharClass, q: string): seq<string> {
    Tokens(cc, Fields(cc, q))
  }

  function Starred(ts: seq<string>): seq<string> {
    seq(|ts|, i requires 0 <= i < |ts| => ts[i] + ":*")
  }

  /** Every token as a prefix pattern, all of them required. */
  function Query(ts: seq<string>): string {
    Join(Starred(ts), " & ")
  }

  method KeepAlnum(cc: CharClass, field: string) returns (b: string)
    ensures b == Alnum(cc, field)
  {
    b := "";
    for j := 0 to |field|
      invariant b == Alnum(cc, field[..j])
    {
      assert field[..j + 1][..j] == field[..j];
      if cc.isAlnum(field[j]) {
        b := b + [field[j]];
      }
    }
    assert field[..|field|] == field;
  }

  lemma StarredNext(cc: CharClass, fields: seq<string>, i: nat)
    requires i < |fields|
    ensures var b := Alnum(cc, fields[i]);
            Starred(Tokens(cc, fields[..i + 1])) ==
            Starred(Tokens(cc, fields[..i])) + if b == "" then [] else [b + ":*"]
  {
    assert fields[..i + 1][..i] == fields[..i];
  }

  method BuildPrefixTSQuery(cc: CharClass, q: string) returns (query: string)
    ensures query == Query(SearchTokens(cc, q))
  {
    var tokens: seq<string> := [];
    var fields := Fields(cc, q);
    for i := 0 to |fields|
      invariant tokens == Starred(Tokens(cc, fields[..i]))
    {
      var b := KeepAlnum(cc, fields[i]);
      StarredNext(cc, fields, i);
      if |b| > 0 {
        tokens := tokens + [b + ":*"];
      }
    }
    assert fields[..|fields|] == fields;
    return Join(tokens, " & ");
  }

  // ----- what a token is -----

  predicate IsToken(cc: CharClass, t: string) {
    t != "" && forall i | 0 <= i < |t| :: cc.isAlnum(t[i])
  }

  predicate AllTokens(cc: CharClass, ts: seq<string>) {
    forall i | 0 <= i < |ts| :: IsToken(cc, ts[i])
  }

  lemma {:induction false} AlnumIsAlnum(cc: CharClass, w: string)
    ensures forall i | 0 <= i < |Alnum(cc, w)| :: cc.isAlnum(Alnum(cc, w)[i])
    ensures (forall i | 0 <= i < |w| :: cc.isAlnum(w[i])) ==> Alnum(cc, w) == w
    decreases |w|
  {
    if w != "" {
      AlnumIsAlnum(cc, w[..|w| - 1]);
    }
  }

  lemma {:induction false} TokensAreTokens(cc: CharClass, ws: seq<string>)
    ensures AllTokens(cc, Tokens(cc, ws))
    decreases |ws|
  {
    if ws != [] {
      TokensAreTokens(cc, ws[..|ws| - 1]);
      AlnumIsAlnum(cc, ws[|ws| - 1]);
    }
  }

  lemma {:induction false} TokensOfBoth(cc: CharClass, a: seq<string>, b: seq<string>)
    ensures Tokens(cc, a + b) == Tokens(cc, a) + Tokens(cc, b)
    decreases |b|
  {
    if b == [] {
      assert a + b == a;
    } else {
      assert (a + b)[..|a + b| - 1] == a + b[..|b| - 1];
      TokensOfBoth(cc, a, b[..|b| - 1]);
    }
  }

  lemma TokensOfOne(cc: CharClass, w: string)
    ensures Tokens(cc, [w]) == NonEmpty(Alnum(cc, w))
  {
    assert [w][..0] == [];
    assert Tokens(cc, []) + NonEmpty(Alnum(cc, w)) == NonEmpty(Alnum(cc, w));
  }

  lemma {:induction false} AlnumStands(cc: CharClass, w: string) returns (at: seq<nat>)
    ensures StandsAt(Alnum(cc, w), w, at) && forall i | 0 <= i < |w| :: i in at <==> cc.isAlnum(w[i])
    decreases |w|
  {
    at := [];
    if w != "" {
      var before, c := w[..|w| - 1], w[|w| - 1];
      assert before + [c] == w;
      at := AlnumStands(cc, before);
      StandsLonger(Alnum(cc, before), before, at, c);
      assert |before| !in at;
      at := if cc.isAlnum(c) then at + [|before|] else at;
    }
  }

  /**
   The tokens of a text: white space separates them, and a text without any is
   one token, what remains of it without everything but letters and digits, or none.
   */
  lemma TokensExactly(cc: CharClass, a: string, c: char, b: string, w: string) returns (at: seq<nat>)
    ensures cc.isSpace(c) ==> SearchTokens(cc, a + [c] + b) == SearchTokens(cc, a) + SearchTokens(cc, b)
    ensures (forall i | 0 <= i < |w| :: !cc.isSpace(w[i])) ==>
              && (forall i | 0 <= i < |w| :: i in at <==> cc.isAlnum(w[i]))
              && (at == [] ==> SearchTokens(cc, w) == [])
              && (at != [] ==> |SearchTokens(cc, w)| == 1 && StandsAt(SearchTokens(cc, w)[0], w, at))
  {
    SplitExactlyAtSpaces(cc, a, c, b, w);
    TokensOfBoth(cc, Fields(cc, a), Fields(cc, b));
    at := AlnumStands(cc, w);
    TokensOfOne(cc, w);
  }

  /** The text of a query: every token followed by ":*", with " & " between any two. */
  lemma QueryText(t: string, rest: seq<string>)
    ensures Query([]) == "" && Query([t]) == t + ":*"
    ensures rest != [] ==> Query([t] + rest) == t + ":*" + " & " + Query(rest)
  {
    assert Starred([t]) == [t + ":*"];
    if rest != [] {
      assert Starred([t] + rest)[1..] == Starred(rest);
    }
  }

  // ----- the round trip -----

  lemma StarredWord(cc: CharClass, t: string)
    requires Lawful(cc) && IsToken(cc, t)
    ensures Fields(cc, t + ":*") == [t + ":*"] && IsWord(cc, t + ":*")
    ensures Tokens(cc, [t + ":*"]) == [t] && Alnum(cc, t + ":*") == t
  {
    FieldsOfWord(cc, "", t + ":*");
    assert "" + (t + ":*") == t + ":*";
    TokensOfOne(cc, t + ":*");
    AlnumIsAlnum(cc, t);
    assert (t + ":*")[..|t| + 1] == t + ":";
    assert (t + ":")[..|t|] == t;
    assert Alnum(cc, t + ":") == t;
  }

  lemma Ampersand(cc: CharClass)
    requires Lawful(cc)
    ensures IsWord(cc, "&") && Alnum(cc, "&") == ""
  {
    assert "&"[..0] == "";
  }

  lemma WordThenRest(cc: CharClass, w: string, rest: string)
    requires Lawful(cc) && IsWord(cc, w)
    ensures SearchTokens(cc, w + " " + rest) == NonEmpty(Alnum(cc, w)) + SearchTokens(cc, rest)
  {
    FieldsOfWord(cc, "", w);
    assert "" + w == w;
    FieldsAcrossSpace(cc, "", w, ' ', rest);
    TokensOfOne(cc, w);
    TokensOfBoth(cc, [w], Fields(cc, rest));
  }

  lemma QueryHead(cc: CharClass, t: string, rest: string)
    requires Lawful(cc) && IsToken(cc, t)
    ensures SearchTokens(cc, t + ":*" + " & " + rest) == [t] + SearchTokens(cc, rest)
  {
    var tail := "&" + " " + rest;
    StarredWord(cc, t);
    Ampersand(cc);
    WordThenRest(cc, "&", rest);
    WordThenRest(cc, t + ":*", tail);
    SeparatorText(t + ":*", rest);
    assert [] + SearchTokens(cc, rest) == SearchTokens(cc, rest);
  }

  lemma SeparatorText(head: string, rest: string)
    ensures head + " " + ("&" + " " + rest) == head + " & " + rest
  {
  }

  /** Splitting a query recovers its tokens. */
  lemma {:induction false} QueryKeepsTokens(cc: CharClass, ts: seq<string>)
    requires Lawful(cc) && AllTokens(cc, ts)
    ensures SearchTokens(cc, Query(ts)) == ts
    decreases |ts|
  {
    if ts == [] {
      assert Query(ts) == "";
    } else {
      StarredWord(cc, ts[0]);
      if |ts| > 1 {
        assert Starred(ts)[1..] == Starred(ts[1..]);
        QueryKeepsTokens(cc, ts[1..]);
        QueryHead(cc, ts[0], Query(ts[1..]));
      }
    }
  }

  /** Any user text: building again from the query changes nothing, and no two token lists share a query. */
  lemma BuildIsIdempotent(cc: CharClass, q: string)
    requires Lawful(cc)
    ensures SearchTokens(cc, Query(SearchTokens(cc, q))) == SearchTokens(cc, q)
    ensures Query(SearchTokens(cc, Query(SearchTokens(cc, q)))) == Query(SearchTokens(cc, q))
  {
    TokensAreTokens(cc, Fields(cc, q));
    QueryKeepsTokens(cc, SearchTokens(cc, q));
  }

  lemma SameQueryExactlyWhen(cc: CharClass, p: string, q: string)
    requires Lawful(cc)
    ensures Query(SearchTokens(cc, p)) == Query(SearchTokens(cc, q)) <==> SearchTokens(cc, p) == SearchTokens(cc, q)
  {
    BuildIsIdempotent(cc, p);
    BuildIsIdempotent(cc, q);
  }

  // ----- nothing is lost -----

  function Flatten(ws: seq<string>): string
    decreases |ws|
  {
    if ws == [] then "" else Flatten(ws[..|ws| - 1]) + ws[|ws| - 1]
  }

  lemma {:induction false} FlattenBoth(a: seq<string>, b: seq<string>)
    ensures Flatten(a + b) == Flatten(a) + Flatten(b)
    decreases |b|
  {
    if b == [] {
      assert a + b == a;
    } else {
      var before, w := b[..|b| - 1], b[|b| - 1];
      assert (a + b)[..|a + b| - 1] == a + before && (a + b)[|a + b| - 1] == w;
      FlattenBoth(a, before);
      Regroup(Flatten(a), Flatten(before), w);
    }
  }

  lemma {:induction false} AlnumBoth(cc: CharClass, a: string, b: string)
    ensures Alnum(cc, a + b) == Alnum(cc, a) + Alnum(cc, b)
    decreases |b|
  {
    if b == "" {
      assert a + b == a;
    } else {
      assert (a + b)[..|a + b| - 1] == a + b[..|b| - 1];
      AlnumBoth(cc, a, b[..|b| - 1]);
    }
  }

  lemma {:induction false} TokensFlatten(cc: CharClass, ws: seq<string>)
    ensures Flatten(Tokens(cc, ws)) == Alnum(cc, Flatten(ws))
    decreases |ws|
  {
    if ws != [] {
      var before, w := ws[..|ws| - 1], ws[|ws| - 1];
      TokensFlatten(cc, before);
      FlattenBoth(Tokens(cc, before), NonEmpty(Alnum(cc, w)));
      AlnumBoth(cc, Flatten(before), w);
      assert Flatten(NonEmpty(Alnum(cc, w))) == Alnum(cc, w) by {
        if Alnum(cc, w) != "" {
          assert [Alnum(cc, w)][..0] == [];
        }
      }
    }
  }

  lemma AlnumAcrossSpace(cc: CharClass, word: string, c: char, rest: string)
    requires !cc.isAlnum(c)
    ensures Alnum(cc, word + [c] + rest) == Alnum(cc, word) + Alnum(cc, rest)
  {
    AlnumBoth(cc, word + [c], rest);
    assert (word + [c])[..|word|] == word;
  }

  lemma {:induction false} FieldsFlatten(cc: CharClass, word: string, s: string)
    requires Lawful(cc)
    ensures Alnum(cc, Flatten(FieldsFrom(cc, word, s))) == Alnum(cc, word + s)
    decreases |s|
  {
    FlattenOne(word);
    if s == "" {
      assert word + s == word;
    } else {
      var c, rest := s[0], s[1..];
      assert word + s == word + [c] + rest;
      if cc.isSpace(c) {
        FieldsFlatten(cc, "", rest);
        assert "" + rest == rest;
        FlattenBoth(Flush(word), Fields(cc, rest));
        AlnumBoth(cc, word, Flatten(Fields(cc, rest)));
        AlnumAcrossSpace(cc, word, c, rest);
      } else {
        FieldsFlatten(cc, word + [c], rest);
      }
    }
  }

  lemma FlattenOne(word: string)
    ensures Flatten(Flush(word)) == word
  {
    if word != "" {
      assert [word][..0] == [];
    }
  }

  /** The tokens hold every letter and digit of the text, in order, and nothing else. */
  lemma TokensHoldEveryAlnum(cc: CharClass, q: string)
    requires Lawful(cc)
    ensures Flatten(SearchTokens(cc, q)) == Alnum(cc, q)
    ensures Query(SearchTokens(cc, q)) == "" <==> Alnum(cc, q) == ""
  {
    TokensFlatten(cc, Fields(cc, q));
    FieldsFlatten(cc, "", q);
    assert "" + q == q;
    TokensAreTokens(cc, Fields(cc, q));
    var ts := SearchTokens(cc, q);
    if ts != [] {
      assert IsToken(cc, ts[|ts| - 1]);
      assert Starred(ts)[0] == ts[0] + ":*";
    }
  }
}
