/**
 A declarative reading of what the streaming extractor finds, in terms of JSON
 lexical tokens (RFC 8259, section 7 for string literals), and the proof that
 for every byte string the extractor fires exactly that.
 */
module ElementLayout {
  import opened Basics
  import opened Bytes
  import opened StreamParser

  // ----- tokens -----

  /** One character of a string literal: written as itself, or behind a backslash. */
  datatype Unit = Plain(c: byte) | Escaped(c: byte)

  /** A string literal, or any single byte outside string literals. */
  datatype Token = Raw(c: byte) | Literal(body: seq<Unit>)

  predicate LegalUnit(u: Unit) {
    u.Plain? ==> u.c != QUOTE && u.c != BACKSLASH
  }

  predicate LegalBody(body: seq<Unit>) {
    forall i | 0 <= i < |body| :: LegalUnit(body[i])
  }

  predicate LegalToken(t: Token) {
    match t
    case Raw(c) => c != QUOTE
    case Literal(body) => LegalBody(body)
  }

  predicate Legal(ts: seq<Token>) {
    forall i | 0 <= i < |ts| :: LegalToken(ts[i])
  }

  function SpellUnit(u: Unit): Text {
    match u
    case Plain(c) => [c]
    case Escaped(c) => [BACKSLASH, c]
  }

  function SpellBody(body: seq<Unit>): Text
    decreases |body|
  {
    if body == [] then [] else SpellBody(body[..|body| - 1]) + SpellUnit(body[|body| - 1])
  }

  /** A literal's bytes as the extractor compares them: escapes lose their backslash. */
  function Strip(body: seq<Unit>): Text
    decreases |body|
  {
    if body == [] then [] else Strip(body[..|body| - 1]) + [body[|body| - 1].c]
  }

  function SpellToken(t: Token): Text {
    match t
    case Raw(c) => [c]
    case Literal(body) => [QUOTE] + SpellBody(body) + [QUOTE]
  }

  function Spell(ts: seq<Token>): Text
    decreases |ts|
  {
    if ts == [] then [] else Spell(ts[..|ts| - 1]) + SpellToken(ts[|ts| - 1])
  }

  function Weight(t: Token): int {
    if t == Raw(OPEN_BRACE) then 1 else if t == Raw(CLOSE_BRACE) then -1 else 0
  }

  /** Open braces minus closed braces, string literals not counted. */
  function Balance(ts: seq<Token>): int
    decreases |ts|
  {
    if ts == [] then 0 else Balance(ts[..|ts| - 1]) + Weight(ts[|ts| - 1])
  }

  lemma SpellSnoc(ts: seq<Token>, t: Token)
    ensures Spell(ts + [t]) == Spell(ts) + SpellToken(t)
    ensures Balance(ts + [t]) == Balance(ts) + Weight(t)
  {
    assert (ts + [t])[..|ts|] == ts;
  }

  lemma SpellBodySnoc(body: seq<Unit>, u: Unit)
    ensures SpellBody(body + [u]) == SpellBody(body) + SpellUnit(u)
  {
    assert (body + [u])[..|body|] == body;
  }

  lemma StripSnoc(body: seq<Unit>, u: Unit)
    ensures Strip(body + [u]) == Strip(body) + [u.c]
  {
    assert (body + [u])[..|body|] == body;
  }

  // ----- object texts -----

  /** Starts with '{' and has not closed it. */
  ghost predicate OpenTokens(ts: seq<Token>) {
    && ts != [] && ts[0] == Raw(OPEN_BRACE) && Legal(ts)
    && forall k | 0 < k <= |ts| :: Balance(ts[..k]) >= 1
  }

  /** Starts with '{' and closes it with the last token, not before. */
  ghost predicate ObjectTokens(ts: seq<Token>) {
    && |ts| >= 2 && Legal(ts)
    && OpenTokens(ts[..|ts| - 1])
    && Balance(ts) == 0
  }

  ghost predicate IsObjectText(t: Text) {
    exists ts :: ObjectTokens(ts) && Spell(ts) == t
  }

  lemma ObjectTokensEndInBrace(ts: seq<Token>)
    requires ObjectTokens(ts)
    ensures ts[|ts| - 1] == Raw(CLOSE_BRACE)
  {
    var before := ts[..|ts| - 1];
    assert before[..|before|] == before;
    assert Balance(before) >= 1;
  }

  lemma OpenTokensSnoc(ts: seq<Token>, t: Token)
    requires OpenTokens(ts) && LegalToken(t) && Balance(ts) + Weight(t) >= 1
    ensures OpenTokens(ts + [t])
  {
    SpellSnoc(ts, t);
    forall k | 0 < k <= |ts| + 1
      ensures Balance((ts + [t])[..k]) >= 1
    {
      if k <= |ts| {
        assert (ts + [t])[..k] == ts[..k];
      } else {
        assert (ts + [t])[..k] == ts + [t];
      }
    }
  }

  lemma ObjectTextIsNotEmpty(e: Text)
    requires IsObjectText(e)
    ensures |e| >= 2 && e[0] == OPEN_BRACE && e[|e| - 1] == CLOSE_BRACE
  {
    var ts :| ObjectTokens(ts) && Spell(ts) == e;
    ObjectTokensEndInBrace(ts);
    SpellStartsWithFirst(ts[..|ts| - 1]);
  }

  lemma {:induction false} SpellStartsWithFirst(ts: seq<Token>)
    requires ts != [] && ts[0].Raw?
    ensures Spell(ts) != [] && Spell(ts)[0] == ts[0].c
    decreases |ts|
  {
    if |ts| > 1 {
      SpellStartsWithFirst(ts[..|ts| - 1]);
    } else {
      assert Spell(ts[..0]) == [];
    }
  }

  // ----- an object text is fired, and nothing before its last byte -----

  /** Between two elements of the array. */
  function Idle(fieldBuf: Text): State {
    State(InsideArray, 0, false, false, [], fieldBuf)
  }

  ghost predicate Between(s: State) {
    s == Idle(s.fieldBuf)
  }

  lemma UnitIsCopied(field: Text, s: State, u: Unit)
    requires s.phase == InsideElement && s.inString && !s.escape && LegalUnit(u)
    ensures Run(field, s, SpellUnit(u)) == Outcome(s.(buf := s.buf + SpellUnit(u)), [])
  {
    match u
    case Plain(c) =>
      RunByte(field, s, c);
    case Escaped(c) =>
      RunByte(field, s, BACKSLASH);
      RunOfOne(field, s, [BACKSLASH], c);
      assert s.buf + [BACKSLASH] + [c] == s.buf + [BACKSLASH, c];
  }

  lemma {:induction false} BodyIsCopied(field: Text, s: State, body: seq<Unit>)
    requires s.phase == InsideElement && s.inString && !s.escape && LegalBody(body)
    ensures Run(field, s, SpellBody(body)) == Outcome(s.(buf := s.buf + SpellBody(body)), [])
    decreases |body|
  {
    if body == [] {
      assert s.buf + [] == s.buf;
    } else {
      var before, u := body[..|body| - 1], body[|body| - 1];
      BodyIsCopied(field, s, before);
      var mid := s.(buf := s.buf + SpellBody(before));
      RunSplits(field, s, SpellBody(before), SpellUnit(u));
      UnitIsCopied(field, mid, u);
      Regroup(s.buf, SpellBody(before), SpellUnit(u));
    }
  }

  lemma LiteralIsCopied(field: Text, s: State, body: seq<Unit>)
    requires s.phase == InsideElement && !s.inString && !s.escape && LegalBody(body)
    ensures Run(field, s, SpellToken(Literal(body))) == Outcome(s.(buf := s.buf + SpellToken(Literal(body))), [])
  {
    var open := s.(buf := s.buf + [QUOTE], inString := true);
    var inside := open.(buf := open.buf + SpellBody(body));
    var after := inside.(buf := inside.buf + [QUOTE], inString := false);
    RunByte(field, s, QUOTE);
    BodyIsCopied(field, open, body);
    RunByte(field, inside, QUOTE);
    RunThreeSilent(field, s, [QUOTE], open, SpellBody(body), inside, [QUOTE], after);
    Regroup(s.buf, [QUOTE] + SpellBody(body), [QUOTE]);
    Regroup(s.buf, [QUOTE], SpellBody(body));
  }

  lemma TokenIsCopied(field: Text, s: State, t: Token)
    requires s.phase == InsideElement && !s.inString && !s.escape && s.depth >= 1
    requires LegalToken(t) && s.depth + Weight(t) >= 1
    ensures Run(field, s, SpellToken(t)) ==
            Outcome(s.(buf := s.buf + SpellToken(t), depth := s.depth + Weight(t)), [])
  {
    match t
    case Raw(c) =>
      RunByte(field, s, c);
    case Literal(body) =>
      LiteralIsCopied(field, s, body);
  }

  lemma {:induction false} OpenTokensAreCopied(field: Text, s: State, ts: seq<Token>)
    requires Between(s) && OpenTokens(ts)
    ensures Run(field, s, Spell(ts)) ==
            Outcome(s.(phase := InsideElement, depth := Balance(ts), buf := Spell(ts)), [])
    decreases |ts|
  {
    var before, t := ts[..|ts| - 1], ts[|ts| - 1];
    assert ts[..|ts|] == ts;
    if |ts| == 1 {
      assert Spell(before) == [];
      RunOfOne(field, s, [], OPEN_BRACE);
    } else {
      assert OpenTokens(before) by {
        assert forall k | 0 < k <= |before| :: before[..k] == ts[..k];
      }
      OpenTokensAreCopied(field, s, before);
      RunSplits(field, s, Spell(before), SpellToken(t));
      assert before[..|before|] == before;
      TokenIsCopied(field, s.(phase := InsideElement, depth := Balance(before), buf := Spell(before)), t);
    }
  }

  lemma ObjectIsFired(field: Text, s: State, e: Text)
    requires Between(s) && IsObjectText(e)
    ensures Run(field, s, e) == Outcome(s, [e])
  {
    var ts :| ObjectTokens(ts) && Spell(ts) == e;
    ObjectTokensEndInBrace(ts);
    var before := ts[..|ts| - 1];
    OpenTokensAreCopied(field, s, before);
    RunOfOne(field, s, Spell(before), CLOSE_BRACE);
  }

  // ----- everything fired is an object text -----

  /** The buffer spells the tokens `ts`, then perhaps an unfinished literal. */
  ghost predicate Buffers(s: State, ts: seq<Token>, body: seq<Unit>) {
    && s.phase == InsideElement
    && OpenTokens(ts) && Balance(ts) == s.depth >= 1 && LegalBody(body)
    && (s.escape ==> s.inString)
    && s.buf == Spell(ts) + Unfinished(s.inString, s.escape, body)
  }

  function Unfinished(inString: bool, escape: bool, body: seq<Unit>): Text {
    (if inString then [QUOTE] + SpellBody(body) else []) + (if escape then [BACKSLASH] else [])
  }

  lemma UnfinishedCloses(body: seq<Unit>)
    ensures Unfinished(true, false, body) + [QUOTE] == SpellToken(Literal(body))
  {
  }

  lemma LiteralGrows(escape: bool, body: seq<Unit>, c: byte) returns (body': seq<Unit>)
    requires LegalBody(body) && (escape || c != QUOTE)
    ensures LegalBody(body')
    ensures Strip(body') == if !escape && c == BACKSLASH then Strip(body) else Strip(body) + [c]
    ensures Unfinished(true, escape, body) + [c] == Unfinished(true, !escape && c == BACKSLASH, body')
  {
    body' := body;
    if escape || c != BACKSLASH {
      var u := if escape then Escaped(c) else Plain(c);
      body' := body + [u];
      StripSnoc(body, u);
      SpellBodySnoc(body, u);
    }
  }

  lemma StringStepIsSound(s: State, c: byte, ts: seq<Token>, body: seq<Unit>)
      returns (ts': seq<Token>, body': seq<Unit>)
    requires Buffers(s, ts, body) && s.inString
    ensures Buffers(ElementStep(s, c).state, ts', body')
  {
    if !s.escape && c == QUOTE {
      ts', body' := ts + [Literal(body)], [];
      SpellSnoc(ts, Literal(body));
      OpenTokensSnoc(ts, Literal(body));
      UnfinishedCloses(body);
      Regroup(Spell(ts), Unfinished(true, false, body), [c]);
    } else {
      ts' := ts;
      body' := LiteralGrows(s.escape, body, c);
      Regroup(Spell(ts), Unfinished(true, s.escape, body), [c]);
    }
  }

  lemma ClosingBrace(ts: seq<Token>)
    requires OpenTokens(ts) && Balance(ts) == 1
    ensures IsObjectText(Spell(ts) + [CLOSE_BRACE])
  {
    var ts' := ts + [Raw(CLOSE_BRACE)];
    SpellSnoc(ts, Raw(CLOSE_BRACE));
    assert ts'[..|ts'| - 1] == ts;
    assert ObjectTokens(ts');
  }

  lemma RawStepIsSound(s: State, c: byte, ts: seq<Token>, body: seq<Unit>)
      returns (ts': seq<Token>, body': seq<Unit>)
    requires Buffers(s, ts, body) && !s.inString
    ensures var o := ElementStep(s, c);
            if o.state.phase == InsideElement then Buffers(o.state, ts', body')
            else IsObjectText(s.buf + [c]) && Between(o.state)
  {
    ts', body' := ts, [];
    assert s.buf == Spell(ts);
    if c == QUOTE {
      assert Unfinished(true, false, []) == [c];
    } else if c == CLOSE_BRACE && s.depth == 1 {
      ClosingBrace(ts);
    } else {
      ts' := ts + [Raw(c)];
      SpellSnoc(ts, Raw(c));
      OpenTokensSnoc(ts, Raw(c));
      assert Spell(ts') + Unfinished(false, false, []) == s.buf + [c];
    }
  }

  /** The buffer is the beginning of an object text. */
  ghost predicate Collecting(s: State) {
    exists ts, body :: Buffers(s, ts, body)
  }

  lemma ElementStepIsSound(s: State, c: byte)
    requires s.phase == InsideElement && s.depth >= 1 && Collecting(s)
    ensures var o := ElementStep(s, c);
            if o.state.phase == InsideElement
            then Collecting(o.state) && o.state.depth >= 1
            else IsObjectText(s.buf + [c]) && o == Outcome(Idle(s.fieldBuf), [s.buf + [c]])
  {
    var ts, body :| Buffers(s, ts, body);
    if s.inString {
      var ts', body' := StringStepIsSound(s, c, ts, body);
      assert Collecting(ElementStep(s, c).state);
    } else {
      var ts', body' := RawStepIsSound(s, c, ts, body);
    }
  }

  lemma ElementStepFrame(s: State, c: byte)
    requires ElementStep(s, c).state.phase == InsideElement
    ensures var o := ElementStep(s, c); o.fired == [] && o.state.buf == s.buf + [c] && o.state.fieldBuf == s.fieldBuf
  {
  }

  /** Running from inside an element over `x` first fires the element that `k` more bytes complete. */
  ghost predicate ClosesAfter(field: Text, s: State, x: Text, k: nat) {
    && k <= |x|
    && Run(field, s, x) == Outcome(Run(field, Idle(s.fieldBuf), x[k..]).state,
                                   [s.buf + x[..k]] + Run(field, Idle(s.fieldBuf), x[k..]).fired)
  }

  lemma ClosesNow(field: Text, s: State, x: Text)
    requires x != [] && Step(field, s, x[0]) == Outcome(Idle(s.fieldBuf), [s.buf + [x[0]]])
    ensures ClosesAfter(field, s, x, 1) && s.buf + x[..1] == s.buf + [x[0]]
  {
    assert x[..1] == [x[0]];
  }

  lemma ClosesOneLater(field: Text, s: State, next: State, x: Text, k: nat)
    requires x != [] && Step(field, s, x[0]) == Outcome(next, [])
    requires next.buf == s.buf + [x[0]] && next.fieldBuf == s.fieldBuf
    requires ClosesAfter(field, next, x[1..], k)
    ensures ClosesAfter(field, s, x, k + 1)
    ensures next.buf + x[1..][..k] == s.buf + x[..k + 1]
  {
    assert next.buf + x[1..][..k] == s.buf + x[..k + 1];
    assert x[1..][k..] == x[k + 1..];
  }

  lemma ClosesNever(field: Text, s: State, next: State, x: Text)
    requires x != [] && Step(field, s, x[0]) == Outcome(next, []) && Run(field, next, x[1..]).fired == []
    ensures Run(field, s, x).fired == []
  {
  }

  /** From inside an element: either it never closes, or the first bytes close it and fire it. */
  lemma {:induction false} ElementClosesOrNot(field: Text, s: State, x: Text) returns (closed: bool, k: nat)
    requires s.phase == InsideElement && s.depth >= 1 && Collecting(s)
    ensures !closed ==> Run(field, s, x).fired == []
    ensures closed ==> ClosesAfter(field, s, x, k) && IsObjectText(s.buf + x[..k])
    decreases |x|
  {
    closed, k := false, 0;
    if x != [] {
      ElementStepIsSound(s, x[0]);
      var next := Step(field, s, x[0]).state;
      if next.phase == InsideElement {
        ElementStepFrame(s, x[0]);
        closed, k := ElementClosesOrNot(field, next, x[1..]);
        if closed {
          ClosesOneLater(field, s, next, x, k);
          k := k + 1;
        } else {
          ClosesNever(field, s, next, x);
        }
      } else {
        closed, k := true, 1;
        ClosesNow(field, s, x);
      }
    }
  }

  // ----- the layout of an array body -----

  /** Bytes that may stand between elements: anything but '{' and ']'. */
  predicate Gap(gap: Text) {
    forall i | 0 <= i < |gap| :: gap[i] != OPEN_BRACE && gap[i] != CLOSE_BRACKET
  }

  /** After a gap of `g` bytes stands the object text `e`. */
  ghost predicate FirstElement(x: Text, g: nat, e: Text) {
    g + |e| <= |x| && Gap(x[..g]) && x[g..g + |e|] == e && IsObjectText(e)
  }

  /** After a gap of `g` bytes the input ends, the array closes, or an object opens that never closes. */
  ghost predicate NoElement(x: Text, g: nat) {
    && g <= |x| && Gap(x[..g])
    && (g == |x| || x[g] == CLOSE_BRACKET
        || (x[g] == OPEN_BRACE && forall k | g <= k <= |x| :: !IsObjectText(x[g..k])))
  }

  /** The array body `x` holds the elements `es`: disjoint, in order, separated by gaps, and no others. */
  ghost predicate Layout(x: Text, es: seq<Text>)
    decreases |es|
  {
    if es == [] then exists g: nat :: NoElement(x, g)
    else exists g: nat :: FirstElement(x, g, es[0]) && Layout(x[g + |es[0]|..], es[1..])
  }

  lemma {:induction false} GapIsSkipped(field: Text, s: State, gap: Text)
    requires Between(s) && Gap(gap)
    ensures Run(field, s, gap) == Outcome(s, [])
    decreases |gap|
  {
    if gap != [] {
      GapIsSkipped(field, s, gap[1..]);
    }
  }

  lemma FreshElement(field: Text, s: State)
    requires Between(s)
    ensures var o := Step(field, s, OPEN_BRACE);
            && o.fired == [] && o.state.phase == InsideElement && o.state.depth == 1
            && o.state.buf == [OPEN_BRACE] && Collecting(o.state)
  {
    var ts := [Raw(OPEN_BRACE)];
    SpellSnoc([], Raw(OPEN_BRACE));
    assert [] + [Raw(OPEN_BRACE)] == ts;
    assert forall k | 0 < k <= |ts| :: ts[..k] == ts;
    assert Buffers(Step(field, s, OPEN_BRACE).state, ts, []);
  }

  lemma OpenedText(x: Text, g: nat, k: nat)
    requires g < |x| && x[g] == OPEN_BRACE && k <= |x[g..][1..]| && Gap(x[..g])
    requires IsObjectText([OPEN_BRACE] + x[g..][1..][..k])
    ensures g + (k + 1) <= |x| && FirstElement(x, g, x[g..g + (k + 1)])
  {
    assert [OPEN_BRACE] + x[g..][1..][..k] == x[g..g + (k + 1)];
  }

  /** After a gap, an opening brace starts an element that closes later or never. */
  lemma OpensElement(field: Text, s: State, x: Text, g: nat) returns (closed: bool, k: nat)
    requires Between(s) && g < |x| && Gap(x[..g]) && x[g] == OPEN_BRACE
    ensures !closed ==> Run(field, s, x).fired == []
    ensures closed ==> g + k <= |x| && FirstElement(x, g, x[g..g + k])
  {
    FreshElement(field, s);
    var inside := Step(field, s, OPEN_BRACE).state;
    closed, k := ElementClosesOrNot(field, inside, x[g..][1..]);
    if closed {
      OpenedText(x, g, k);
      k := k + 1;
    } else {
      ClosesNever(field, s, inside, x[g..]);
      SkipGap(field, s, x, g);
    }
  }

  lemma SkipGap(field: Text, s: State, x: Text, g: nat)
    requires Between(s) && g <= |x| && Gap(x[..g])
    ensures Run(field, s, x) == Run(field, s, x[g..])
  {
    GapIsSkipped(field, s, x[..g]);
    RunSplits(field, s, x[..g], x[g..]);
    assert x[..g] + x[g..] == x;
  }

  lemma FirstElementIsFired(field: Text, s: State, x: Text, g: nat, e: Text)
    requires Between(s) && FirstElement(x, g, e)
    ensures Run(field, s, x).fired == [e] + Run(field, s, x[g + |e|..]).fired
  {
    SkipGap(field, s, x, g);
    ObjectIsFired(field, s, e);
    RunSplits(field, s, e, x[g + |e|..]);
    assert x[g..] == e + x[g + |e|..];
  }

  lemma NothingIsFired(field: Text, s: State, x: Text, g: nat)
    requires Between(s) && NoElement(x, g)
    ensures Run(field, s, x).fired == []
  {
    SkipGap(field, s, x, g);
    if g < |x| && x[g] == CLOSE_BRACKET {
      DoneIsAbsorbing(field, Step(field, s, x[g]).state, x[g..][1..]);
    } else if g < |x| {
      var closed, k := OpensElement(field, s, x, g);
    }
  }

  lemma {:induction false} LayoutIsFired(field: Text, s: State, x: Text, es: seq<Text>)
    requires Between(s) && Layout(x, es)
    ensures Run(field, s, x).fired == es
    decreases |es|
  {
    if es == [] {
      var g: nat :| NoElement(x, g);
      NothingIsFired(field, s, x, g);
    } else {
      var g := LayoutRest(x, es);
      FirstElementIsFired(field, s, x, g, es[0]);
      LayoutIsFired(field, s, x[g + |es[0]|..], es[1..]);
    }
  }

  lemma LayoutRest(x: Text, es: seq<Text>) returns (g: nat)
    requires Layout(x, es) && es != []
    ensures FirstElement(x, g, es[0]) && Layout(x[g + |es[0]|..], es[1..])
  {
    g :| FirstElement(x, g, es[0]) && Layout(x[g + |es[0]|..], es[1..]);
  }

  lemma {:induction false} GapEndsSomewhere(x: Text) returns (g: nat)
    ensures g <= |x| && Gap(x[..g])
    ensures g < |x| ==> x[g] == OPEN_BRACE || x[g] == CLOSE_BRACKET
  {
    g := 0;
    while g < |x| && x[g] != OPEN_BRACE && x[g] != CLOSE_BRACKET
      invariant g <= |x| && Gap(x[..g])
    {
      g := g + 1;
    }
  }

  lemma LayoutCons(x: Text, g: nat, e: Text, rest: seq<Text>)
    requires FirstElement(x, g, e) && Layout(x[g + |e|..], rest)
    ensures Layout(x, [e] + rest)
  {
    var es := [e] + rest;
    assert es[0] == e && es[1..] == rest;
    assert FirstElement(x, g, es[0]) && Layout(x[g + |es[0]|..], es[1..]);
  }

  lemma NeverClosed(field: Text, s: State, x: Text, g: nat)
    requires Between(s) && g < |x| && Gap(x[..g]) && x[g] == OPEN_BRACE && Run(field, s, x).fired == []
    ensures NoElement(x, g)
  {
    forall j | g <= j <= |x|
      ensures !IsObjectText(x[g..j])
    {
      if IsObjectText(x[g..j]) {
        FirstElementIsFired(field, s, x, g, x[g..j]);
      }
    }
  }

  lemma {:induction false} FiredHasLayout(field: Text, s: State, x: Text)
    requires Between(s)
    ensures Layout(x, Run(field, s, x).fired)
    decreases |x|
  {
    var g := GapEndsSomewhere(x);
    if g == |x| || x[g] == CLOSE_BRACKET {
      assert NoElement(x, g);
      NothingIsFired(field, s, x, g);
    } else {
      var closed, k := OpensElement(field, s, x, g);
      if closed {
        var e := x[g..g + k];
        FirstElementIsFired(field, s, x, g, e);
        ObjectTextIsNotEmpty(e);
        FiredHasLayout(field, s, x[g + |e|..]);
        LayoutCons(x, g, e, Run(field, s, x[g + |e|..]).fired);
      } else {
        NeverClosed(field, s, x, g);
      }
    }
  }

  /** For every array body: what is fired is its layout, and it has only one. */
  lemma LayoutExact(field: Text, s: State, x: Text, es: seq<Text>)
    requires Between(s)
    ensures Run(field, s, x).fired == es <==> Layout(x, es)
  {
    FiredHasLayout(field, s, x);
    if Layout(x, es) {
      LayoutIsFired(field, s, x, es);
    }
  }
}
