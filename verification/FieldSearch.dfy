/**
 Where the extractor finds its array: the first ':' outside string literals
 whose preceding literal, with its backslashes dropped, is the field name; then
 the next '['. Together with the element layout this says, for every byte
 string, exactly what the extractor fires.
 */
module FieldSearch {
  import opened Basics
  import opened Bytes
  import opened StreamParser
  import opened ElementLayout

  /** The last literal of `ts`, stripped; empty when there is none. */
  function LastName(ts: seq<Token>): Text
    decreases |ts|
  {
    if ts == [] then []
    else match ts[|ts| - 1]
      case Literal(body) => Strip(body)
      case Raw(_) => LastName(ts[..|ts| - 1])
  }

  /** No ':' of `ts` follows a literal named `field`. */
  predicate Unnamed(field: Text, ts: seq<Token>)
    decreases |ts|
  {
    ts == [] ||
    var before := ts[..|ts| - 1];
    Unnamed(field, before) && (ts[|ts| - 1] == Raw(COLON) ==> LastName(before) != field)
  }

  ghost predicate SpelledUnnamed(field: Text, ts: seq<Token>, x: Text) {
    Legal(ts) && Unnamed(field, ts) && Spell(ts) == x
  }

  /** The ':' at `m` is the first one that follows a literal named `field`. */
  ghost predicate MatchesAt(field: Text, x: Text, m: nat) {
    && m < |x| && x[m] == COLON
    && exists ts :: SpelledUnnamed(field, ts, x[..m]) && LastName(ts) == field
  }

  predicate NoBracket(x: Text) {
    forall i | 0 <= i < |x| :: x[i] != OPEN_BRACKET
  }

  /** The field's array body starts at `p`. */
  ghost predicate OpensAt(field: Text, x: Text, m: nat, p: nat) {
    MatchesAt(field, x, m) && m + 1 < p <= |x| && x[p - 1] == OPEN_BRACKET && NoBracket(x[m + 1..p - 1])
  }

  // ----- from tokens to the search state -----

  function Searching(name: Text): State {
    State(SearchField, 0, false, false, [], name)
  }

  lemma TokensSnoc(ts: seq<Token>, t: Token)
    ensures (ts + [t])[..|ts|] == ts && (ts + [t])[|ts|] == t
    ensures Spell(ts + [t]) == Spell(ts) + SpellToken(t)
  {
    SpellSnoc(ts, t);
  }

  lemma UnitIsCollected(field: Text, s: State, u: Unit)
    requires s.phase == SearchField && s.inString && !s.escape && LegalUnit(u)
    ensures Run(field, s, SpellUnit(u)) == Outcome(s.(fieldBuf := s.fieldBuf + [u.c]), [])
  {
    match u
    case Plain(c) =>
      RunByte(field, s, c);
    case Escaped(c) =>
      RunByte(field, s, BACKSLASH);
      RunOfOne(field, s, [BACKSLASH], c);
      assert [BACKSLASH] + [c] == [BACKSLASH, c];
  }

  lemma {:induction false} NameIsCollected(field: Text, s: State, body: seq<Unit>)
    requires s.phase == SearchField && s.inString && !s.escape && s.fieldBuf == [] && LegalBody(body)
    ensures Run(field, s, SpellBody(body)) == Outcome(s.(fieldBuf := Strip(body)), [])
    decreases |body|
  {
    if body != [] {
      var before, u := body[..|body| - 1], body[|body| - 1];
      NameIsCollected(field, s, before);
      RunSplits(field, s, SpellBody(before), SpellUnit(u));
      UnitIsCollected(field, s.(fieldBuf := Strip(before)), u);
    }
  }

  lemma LiteralIsSearched(field: Text, name: Text, body: seq<Unit>)
    requires LegalBody(body)
    ensures Run(field, Searching(name), SpellToken(Literal(body))) == Outcome(Searching(Strip(body)), [])
  {
    var open := Searching(name).(inString := true, fieldBuf := []);
    var inside := open.(fieldBuf := Strip(body));
    RunByte(field, Searching(name), QUOTE);
    NameIsCollected(field, open, body);
    RunByte(field, inside, QUOTE);
    RunThreeSilent(field, Searching(name), [QUOTE], open, SpellBody(body), inside, [QUOTE], Searching(Strip(body)));
  }

  lemma TokenIsSearched(field: Text, name: Text, t: Token)
    requires LegalToken(t) && (t == Raw(COLON) ==> name != field)
    ensures Run(field, Searching(name), SpellToken(t)) ==
            Outcome(Searching(if t.Literal? then Strip(t.body) else name), [])
  {
    match t
    case Raw(c) =>
      RunByte(field, Searching(name), c);
    case Literal(body) =>
      LiteralIsSearched(field, name, body);
  }

  lemma {:induction false} UnnamedIsSearched(field: Text, ts: seq<Token>)
    requires Legal(ts) && Unnamed(field, ts)
    ensures Run(field, START, Spell(ts)) == Outcome(Searching(LastName(ts)), [])
    decreases |ts|
  {
    if ts != [] {
      var before, t := ts[..|ts| - 1], ts[|ts| - 1];
      UnnamedIsSearched(field, before);
      TokenIsSearched(field, LastName(before), t);
      RunSplits(field, START, Spell(before), SpellToken(t));
    }
  }

  function Waiting(name: Text): State {
    State(AwaitArray, 0, false, false, [], name)
  }

  lemma {:induction false} NothingUntilBracket(field: Text, name: Text, x: Text)
    requires NoBracket(x)
    ensures Run(field, Waiting(name), x) == Outcome(Waiting(name), [])
    decreases |x|
  {
    if x != [] {
      NothingUntilBracket(field, name, x[1..]);
    }
  }

  lemma NamedColonIsFound(field: Text, ts: seq<Token>)
    requires Legal(ts) && Unnamed(field, ts) && LastName(ts) == field
    ensures Run(field, START, Spell(ts) + [COLON]) == Outcome(Waiting(field), [])
  {
    UnnamedIsSearched(field, ts);
    RunOfOne(field, START, Spell(ts), COLON);
  }

  lemma NamedPrefixIsFound(field: Text, x: Text)
    requires exists ts :: SpelledUnnamed(field, ts, x) && LastName(ts) == field
    ensures Run(field, START, x + [COLON]) == Outcome(Waiting(field), [])
  {
    var ts :| SpelledUnnamed(field, ts, x) && LastName(ts) == field;
    NamedColonIsFound(field, ts);
  }

  lemma MatchIsFound(field: Text, x: Text, m: nat)
    requires MatchesAt(field, x, m)
    ensures Run(field, START, x[..m + 1]) == Outcome(Waiting(field), [])
  {
    assert x[..m] + [COLON] == x[..m + 1];
    NamedPrefixIsFound(field, x[..m]);
  }

  lemma BracketIsFound(field: Text, name: Text, x: Text)
    requires NoBracket(x)
    ensures Run(field, Waiting(name), x + [OPEN_BRACKET]) == Outcome(Idle(name), [])
  {
    NothingUntilBracket(field, name, x);
    RunOfOne(field, Waiting(name), x, OPEN_BRACKET);
  }

  lemma OpeningIsReached(field: Text, x: Text, m: nat, p: nat)
    requires OpensAt(field, x, m, p)
    ensures Run(field, START, x[..p]) == Outcome(Idle(field), [])
  {
    var head, mid := x[..m + 1], x[m + 1..p - 1] + [OPEN_BRACKET];
    assert x[..p] == head + mid;
    RunSplits(field, START, head, mid);
    assert Run(field, START, head) == Outcome(Waiting(field), []) by {
      MatchIsFound(field, x, m);
    }
    BracketIsFound(field, field, x[m + 1..p - 1]);
  }

  // ----- from the search state to tokens -----

  /** While searching, the bytes so far spell tokens, then perhaps an unfinished literal. */
  ghost predicate SpelledSoFar(field: Text, s: State, x: Text, ts: seq<Token>, body: seq<Unit>) {
    && s == State(SearchField, 0, s.inString, s.escape, [], if s.inString then Strip(body) else LastName(ts))
    && (s.escape ==> s.inString)
    && Legal(ts) && Unnamed(field, ts) && LegalBody(body)
    && x == Spell(ts) + Unfinished(s.inString, s.escape, body)
  }

  ghost predicate SearchKnown(field: Text, s: State, x: Text) {
    exists ts, body :: SpelledSoFar(field, s, x, ts, body)
  }

  ghost predicate MatchKnown(field: Text, x: Text) {
    exists m: nat :: MatchesAt(field, x, m) && NoBracket(x[m + 1..])
  }

  ghost predicate OpeningKnown(field: Text, x: Text) {
    exists m: nat, p: nat :: OpensAt(field, x, m, p)
  }

  ghost predicate Known(field: Text, s: State, x: Text) {
    match s.phase
    case SearchField => SearchKnown(field, s, x)
    case AwaitArray => s == Waiting(field) && MatchKnown(field, x)
    case _ => OpeningKnown(field, x)
  }

  lemma LiteralCloses(field: Text, ts: seq<Token>, body: seq<Unit>)
    requires Legal(ts) && Unnamed(field, ts) && LegalBody(body)
    ensures SpelledSoFar(field, Searching(Strip(body)), Spell(ts) + Unfinished(true, false, body) + [QUOTE],
                         ts + [Literal(body)], [])
  {
    TokensSnoc(ts, Literal(body));
    UnfinishedCloses(body);
    Regroup(Spell(ts), Unfinished(true, false, body), [QUOTE]);
    NothingUnfinished(Spell(ts + [Literal(body)]));
  }

  lemma NothingUnfinished(x: Text)
    ensures x + Unfinished(false, false, []) == x
  {
  }

  lemma LiteralContinues(field: Text, s: State, x: Text, c: byte, ts: seq<Token>, body: seq<Unit>)
    requires SpelledSoFar(field, s, x, ts, body) && s.inString && (s.escape || c != QUOTE)
    ensures SearchKnown(field, SearchStep(field, s, c), x + [c])
  {
    var body' := LiteralGrows(s.escape, body, c);
    Regroup(Spell(ts), Unfinished(true, s.escape, body), [c]);
    assert SpelledSoFar(field, SearchStep(field, s, c), x + [c], ts, body');
  }

  lemma InLiteralStep(field: Text, s: State, x: Text, c: byte, ts: seq<Token>, body: seq<Unit>)
    requires SpelledSoFar(field, s, x, ts, body) && s.inString
    ensures SearchKnown(field, SearchStep(field, s, c), x + [c])
  {
    if !s.escape && c == QUOTE {
      LiteralCloses(field, ts, body);
    } else {
      LiteralContinues(field, s, x, c, ts, body);
    }
  }

  lemma RawContinues(field: Text, ts: seq<Token>, c: byte)
    requires Legal(ts) && Unnamed(field, ts) && c != QUOTE && (c == COLON ==> LastName(ts) != field)
    ensures SpelledSoFar(field, Searching(LastName(ts)), Spell(ts) + [c], ts + [Raw(c)], [])
  {
    TokensSnoc(ts, Raw(c));
    assert Spell(ts + [Raw(c)]) + Unfinished(false, false, []) == Spell(ts) + [c];
  }

  lemma BetweenLiteralsStep(field: Text, s: State, x: Text, c: byte, ts: seq<Token>, body: seq<Unit>)
    requires SpelledSoFar(field, s, x, ts, body) && !s.inString
    ensures Known(field, SearchStep(field, s, c), x + [c])
  {
    var next := SearchStep(field, s, c);
    assert x == Spell(ts);
    if c == QUOTE {
      assert Unfinished(true, false, []) == [c];
      assert SpelledSoFar(field, next, x + [c], ts, []);
    } else if c == COLON && s.fieldBuf == field {
      assert (x + [c])[..|x|] == x;
      assert SpelledUnnamed(field, ts, (x + [c])[..|x|]);
      assert MatchesAt(field, x + [c], |x|);
    } else {
      RawContinues(field, ts, c);
    }
  }

  lemma MatchStays(field: Text, x: Text, c: byte, m: nat)
    requires MatchesAt(field, x, m)
    ensures MatchesAt(field, x + [c], m)
  {
    assert (x + [c])[..m] == x[..m];
  }

  lemma WaitingStep(field: Text, x: Text, c: byte, m: nat)
    requires MatchesAt(field, x, m) && NoBracket(x[m + 1..])
    ensures Known(field, Step(field, Waiting(field), c).state, x + [c])
  {
    MatchStays(field, x, c, m);
    if c == OPEN_BRACKET {
      assert (x + [c])[m + 1..|x|] == x[m + 1..];
      assert OpensAt(field, x + [c], m, |x| + 1);
    } else {
      assert (x + [c])[m + 1..] == x[m + 1..] + [c];
    }
  }

  lemma OpeningStays(field: Text, x: Text, c: byte, m: nat, p: nat)
    requires OpensAt(field, x, m, p)
    ensures OpensAt(field, x + [c], m, p)
  {
    MatchStays(field, x, c, m);
    assert (x + [c])[m + 1..p - 1] == x[m + 1..p - 1];
  }

  ghost predicate PastSearch(s: State) {
    s.phase == InsideArray || s.phase == InsideElement || s.phase == Done
  }

  lemma SearchStepIsKnown(field: Text, s: State, x: Text, c: byte)
    requires SearchKnown(field, s, x)
    ensures Known(field, SearchStep(field, s, c), x + [c])
  {
    var ts, body :| SpelledSoFar(field, s, x, ts, body);
    if s.inString {
      InLiteralStep(field, s, x, c, ts, body);
      assert SearchStep(field, s, c).phase == SearchField;
    } else {
      BetweenLiteralsStep(field, s, x, c, ts, body);
    }
  }

  lemma AwaitStepIsKnown(field: Text, x: Text, c: byte)
    requires MatchKnown(field, x)
    ensures Known(field, Step(field, Waiting(field), c).state, x + [c])
  {
    var m: nat :| MatchesAt(field, x, m) && NoBracket(x[m + 1..]);
    WaitingStep(field, x, c, m);
  }

  lemma OpeningStaysKnown(field: Text, x: Text, c: byte)
    requires OpeningKnown(field, x)
    ensures OpeningKnown(field, x + [c])
  {
    var m: nat, p: nat :| OpensAt(field, x, m, p);
    OpeningStays(field, x, c, m, p);
  }

  lemma PastSearchStays(field: Text, s: State, c: byte)
    requires PastSearch(s)
    ensures PastSearch(Step(field, s, c).state)
  {
  }

  lemma StepIsKnown(field: Text, s: State, x: Text, c: byte)
    requires Known(field, s, x)
    ensures Known(field, Step(field, s, c).state, x + [c])
  {
    if s.phase == SearchField {
      SearchStepIsKnown(field, s, x, c);
    } else if s.phase == AwaitArray {
      AwaitStepIsKnown(field, x, c);
    } else {
      OpeningStaysKnown(field, x, c);
      PastSearchStays(field, s, c);
    }
  }

  lemma {:induction false} EveryInputIsKnown(field: Text, x: Text)
    ensures Known(field, Run(field, START, x).state, x)
    decreases |x|
  {
    if x == [] {
      assert SpelledSoFar(field, START, [], [], []);
    } else {
      var before, c := x[..|x| - 1], x[|x| - 1];
      assert x == before + [c];
      EveryInputIsKnown(field, before);
      RunOfOne(field, START, before, c);
      StepIsKnown(field, Run(field, START, before).state, before, c);
    }
  }

  lemma {:induction false} NothingBeforeTheOpening(field: Text, s: State, x: Text)
    requires !PastSearch(Run(field, s, x).state)
    ensures !PastSearch(s) && Run(field, s, x).fired == []
    decreases |x|
  {
    if x != [] {
      NothingBeforeTheOpening(field, Step(field, s, x[0]).state, x[1..]);
      assert Step(field, s, x[0]).fired == [];
    }
  }

  // ----- the exact result -----

  /** What `x` holds for `field`, read declaratively. */
  ghost predicate Holds(field: Text, x: Text, es: seq<Text>) {
    || (exists m: nat, p: nat :: OpensAt(field, x, m, p) && Layout(x[p..], es))
    || (es == [] && !exists m: nat, p: nat :: OpensAt(field, x, m, p))
  }

  lemma RunFromOpening(field: Text, x: Text, m: nat, p: nat)
    requires OpensAt(field, x, m, p)
    ensures Elements(field, x) == Run(field, Idle(field), x[p..]).fired
  {
    OpeningIsReached(field, x, m, p);
    ElementsAfter(field, x, p);
  }

  lemma ElementsAfter(field: Text, x: Text, p: nat)
    requires p <= |x| && Run(field, START, x[..p]) == Outcome(Idle(field), [])
    ensures Elements(field, x) == Run(field, Idle(field), x[p..]).fired
  {
    RunSplits(field, START, x[..p], x[p..]);
    assert x[..p] + x[p..] == x;
  }

  lemma OpenedArrayIsRead(field: Text, x: Text, m: nat, p: nat, es: seq<Text>)
    requires OpensAt(field, x, m, p)
    ensures Elements(field, x) == es <==> Layout(x[p..], es)
  {
    RunFromOpening(field, x, m, p);
    LayoutExact(field, Idle(field), x[p..], es);
  }

  /** For every byte string, JSON or not: the elements fired are the ones it holds. */
  lemma ElementsExact(field: Text, x: Text, es: seq<Text>)
    ensures Elements(field, x) == es <==> Holds(field, x, es)
  {
    if exists m: nat, p: nat :: OpensAt(field, x, m, p) {
      forall m: nat, p: nat | OpensAt(field, x, m, p)
        ensures Elements(field, x) == es <==> Layout(x[p..], es)
      {
        OpenedArrayIsRead(field, x, m, p, es);
      }
    } else {
      EveryInputIsKnown(field, x);
      NothingBeforeTheOpening(field, START, x);
    }
  }
}
