/**
 JSON texts (RFC 8259, sections 4, 5 and 7) with every placement of white space
 and escapes, printed to bytes, and the round trip through the extractor.
 */
module JsonText {
  import opened Basics
  import opened Bytes
  import opened StreamParser
  import opened ElementLayout
  import opened FieldSearch

  /** A JSON value as written: `pad` is the white space after the opening bracket. */
  datatype Json =
    | Scalar(text: Text)
    | Str(body: seq<Unit>)
    | Arr(pad: Text, items: seq<Json>)
    | Obj(pad: Text, members: seq<Member>)
    | Padded(pre: Text, value: Json, post: Text)

  datatype Member = Member(pre: Text, key: seq<Unit>, post: Text, value: Json)

  predicate White(x: Text) {
    forall i | 0 <= i < |x| :: x[i] == 0x20 || x[i] == 0x09 || x[i] == 0x0A || x[i] == 0x0D
  }

  /** A byte of a number, `true`, `false` or `null`: none with a role of its own. */
  predicate ScalarByte(c: byte) {
    && c != QUOTE && c != COLON && c != COMMA && c != BACKSLASH
    && c != OPEN_BRACKET && c != CLOSE_BRACKET && c != OPEN_BRACE && c != CLOSE_BRACE
  }

  predicate ScalarText(x: Text) {
    forall i | 0 <= i < |x| :: ScalarByte(x[i])
  }

  ghost predicate WellFormed(v: Json) {
    match v
    case Scalar(text) => ScalarText(text)
    case Str(body) => LegalBody(body)
    case Arr(pad, items) => White(pad) && forall i | 0 <= i < |items| :: WellFormed(items[i])
    case Obj(pad, members) => White(pad) && forall i | 0 <= i < |members| :: WellFormedMember(members[i])
    case Padded(pre, value, post) => White(pre) && White(post) && WellFormed(value)
  }

  /** Numbers (RFC 8259, section 6), `true`, `false` and `null` are values. */
  lemma PlainTextsAreValues(x: Text)
    requires forall i | 0 <= i < |x| ::
               x[i] in {0x2B, 0x2D, 0x2E, 0x45} || 0x30 <= x[i] <= 0x39 || 0x61 <= x[i] <= 0x7A
    ensures WellFormed(Scalar(x))
  {
  }

  ghost predicate WellFormedMember(m: Member) {
    White(m.pre) && LegalBody(m.key) && White(m.post) && WellFormed(m.value)
  }

  /**
   The value of the first member, at any depth and in the order of the document,
   whose key the extractor takes for `field`.
   */
  function Found(field: Text, v: Json): Option<Json>
    decreases v, 1
  {
    match v
    case Scalar(_) => None
    case Str(_) => None
    case Arr(_, items) => FoundInItems(field, items)
    case Obj(_, members) => FoundInMembers(field, members)
    case Padded(_, value, _) => Found(field, value)
  }

  function FoundInItems(field: Text, items: seq<Json>): Option<Json>
    decreases items, 0
  {
    if items == [] then None
    else
      var here := Found(field, items[0]);
      if here.Some? then here else FoundInItems(field, items[1..])
  }

  function FoundInMembers(field: Text, members: seq<Member>): Option<Json>
    decreases members, 0
  {
    if members == [] then None
    else if Strip(members[0].key) == field then Some(members[0].value)
    else
      var here := Found(field, members[0].value);
      if here.Some? then here else FoundInMembers(field, members[1..])
  }

  /**
   How a search stands after a value: still going, for the key or already for the
   '[' after it; ended at an array; or astray at a '[' inside a string or key.
   */
  datatype Sought = Pending(waiting: bool) | Opens(arr: Json) | Astray

  function SeekText(body: seq<Unit>, waiting: bool): Sought {
    if waiting && !NoBracket(Quoted(body)) then Astray else Pending(waiting)
  }

  /** Which array of `v` the extractor reads when it comes to `v` searching for the key, or waiting for a '['. */
  function Seek(field: Text, v: Json, waiting: bool): Sought
    decreases v, 1
  {
    match v
    case Scalar(_) => Pending(waiting)
    case Str(body) => SeekText(body, waiting)
    case Arr(_, items) => if waiting then Opens(v) else SeekItems(field, items, false)
    case Obj(_, members) => SeekMembers(field, members, waiting)
    case Padded(_, value, _) => Seek(field, value, waiting)
  }

  function SeekItems(field: Text, items: seq<Json>, waiting: bool): Sought
    decreases items, 0
  {
    if items == [] then Pending(waiting)
    else
      var here := Seek(field, items[0], waiting);
      if here.Pending? then SeekItems(field, items[1..], here.waiting) else here
  }

  function SeekKey(field: Text, key: seq<Unit>, waiting: bool): Sought {
    if waiting then SeekText(key, true) else Pending(Strip(key) == field)
  }

  function SeekMembers(field: Text, members: seq<Member>, waiting: bool): Sought
    decreases members, 0
  {
    if members == [] then Pending(waiting)
    else
      var named := SeekKey(field, members[0].key, waiting);
      var here := if named.Pending? then Seek(field, members[0].value, named.waiting) else named;
      if here.Pending? then SeekMembers(field, members[1..], here.waiting) else here
  }

  // ----- printing -----

  function Print(v: Json): Text
    decreases v, 1
  {
    match v
    case Scalar(text) => text
    case Str(body) => Quoted(body)
    case Arr(pad, items) => [OPEN_BRACKET] + (pad + Items(true, items)) + [CLOSE_BRACKET]
    case Obj(pad, members) => [OPEN_BRACE] + (pad + Members(true, members)) + [CLOSE_BRACE]
    case Padded(pre, value, post) => pre + Print(value) + post
  }

  function Quoted(body: seq<Unit>): Text {
    SpellToken(Literal(body))
  }

  function Comma(first: bool): Text {
    if first then [] else [COMMA]
  }

  function Items(first: bool, items: seq<Json>): Text
    decreases items, 0
  {
    if items == [] then [] else Comma(first) + Print(items[0]) + Items(false, items[1..])
  }

  function Name(m: Member): Text {
    m.pre + Quoted(m.key) + m.post
  }

  function Members(first: bool, members: seq<Member>): Text
    decreases members, 0
  {
    if members == [] then []
    else (Comma(first) + Name(members[0])) + [COLON] + Print(members[0].value) + Members(false, members[1..])
  }

  // ----- inside an element every printed value is copied -----

  ghost predicate Inside(s: State) {
    s.phase == InsideElement && !s.inString && !s.escape && s.depth >= 1
  }

  /** Inside an element `x` only grows the buffer: all its strings and braces are closed. */
  ghost predicate Copied(field: Text, x: Text) {
    forall s {:trigger Run(field, s, x)} | Inside(s) :: Run(field, s, x) == Outcome(s.(buf := s.buf + x), [])
  }

  lemma CopiedInTwo(field: Text, s: State, x: Text, y: Text)
    requires Run(field, s, x) == Outcome(s.(buf := s.buf + x), [])
    requires Run(field, s.(buf := s.buf + x), y) == Outcome(s.(buf := s.buf + x + y), [])
    ensures Run(field, s, x + y) == Outcome(s.(buf := s.buf + (x + y)), [])
  {
    RunSplits(field, s, x, y);
    Regroup(s.buf, x, y);
  }

  lemma CopiedBoth(field: Text, x: Text, y: Text)
    requires Copied(field, x) && Copied(field, y)
    ensures Copied(field, x + y)
  {
    forall s | Inside(s)
      ensures Run(field, s, x + y) == Outcome(s.(buf := s.buf + (x + y)), [])
    {
      assert Inside(s.(buf := s.buf + x));
      CopiedInTwo(field, s, x, y);
    }
  }

  lemma {:induction false} CopiedBytes(field: Text, x: Text)
    requires forall i | 0 <= i < |x| :: x[i] != QUOTE && x[i] != OPEN_BRACE && x[i] != CLOSE_BRACE
    ensures Copied(field, x)
    decreases |x|
  {
    if x == [] {
      assert forall s: State :: s.buf + x == s.buf;
    } else {
      CopiedBytes(field, x[1..]);
      forall s | Inside(s)
        ensures Run(field, s, [x[0]]) == Outcome(s.(buf := s.buf + [x[0]]), [])
      {
        RunByte(field, s, x[0]);
      }
      CopiedBoth(field, [x[0]], x[1..]);
      assert [x[0]] + x[1..] == x;
    }
  }

  lemma CopiedLiteral(field: Text, body: seq<Unit>)
    requires LegalBody(body)
    ensures Copied(field, Quoted(body))
  {
    forall s | Inside(s)
      ensures Run(field, s, SpellToken(Literal(body))) == Outcome(s.(buf := s.buf + SpellToken(Literal(body))), [])
    {
      TokenIsCopied(field, s, Literal(body));
    }
  }

  /** From an opening brace to its closing one; at depth 0 the element is fired. */
  lemma RunBraces(field: Text, s: State, inside: State, x: Text)
    requires Copied(field, x) && Step(field, s, OPEN_BRACE) == Outcome(inside, []) && Inside(inside)
    ensures Run(field, s, [OPEN_BRACE] + x + [CLOSE_BRACE]) ==
            ElementStep(inside.(buf := inside.buf + x), CLOSE_BRACE)
  {
    RunByte(field, s, OPEN_BRACE);
    RunSplits(field, s, [OPEN_BRACE], x);
    RunOfOne(field, s, [OPEN_BRACE] + x, CLOSE_BRACE);
  }

  lemma CopiedBraces(field: Text, x: Text)
    requires Copied(field, x)
    ensures Copied(field, [OPEN_BRACE] + x + [CLOSE_BRACE])
  {
    forall s | Inside(s)
      ensures Run(field, s, [OPEN_BRACE] + x + [CLOSE_BRACE]) ==
              Outcome(s.(buf := s.buf + ([OPEN_BRACE] + x + [CLOSE_BRACE])), [])
    {
      RunBraces(field, s, s.(buf := s.buf + [OPEN_BRACE], depth := s.depth + 1), x);
      assert s.buf + ([OPEN_BRACE] + x + [CLOSE_BRACE]) == s.buf + [OPEN_BRACE] + x + [CLOSE_BRACE];
    }
  }

  lemma {:induction false} ValueIsCopied(field: Text, v: Json)
    requires WellFormed(v)
    ensures Copied(field, Print(v))
    decreases v, 1
  {
    match v
    case Scalar(text) =>
      CopiedBytes(field, text);
    case Str(body) =>
      CopiedLiteral(field, body);
    case Arr(pad, items) =>
      CopiedBytes(field, pad);
      ItemsAreCopied(field, true, items);
      CopiedBoth(field, pad, Items(true, items));
      CopiedBytes(field, [OPEN_BRACKET]);
      CopiedBytes(field, [CLOSE_BRACKET]);
      CopiedBoth(field, [OPEN_BRACKET], pad + Items(true, items));
      CopiedBoth(field, [OPEN_BRACKET] + (pad + Items(true, items)), [CLOSE_BRACKET]);
    case Obj(pad, members) =>
      MembersAreCopied(field, pad, members);
      CopiedBraces(field, pad + Members(true, members));
    case Padded(pre, value, post) =>
      CopiedBytes(field, pre);
      ValueIsCopied(field, value);
      CopiedBytes(field, post);
      CopiedBoth(field, pre, Print(value));
      CopiedBoth(field, pre + Print(value), post);
  }

  lemma {:induction false} ItemsAreCopied(field: Text, first: bool, items: seq<Json>)
    requires forall i | 0 <= i < |items| :: WellFormed(items[i])
    ensures Copied(field, Items(first, items))
    decreases items, 0
  {
    if items == [] {
      CopiedBytes(field, []);
    } else {
      CopiedBytes(field, Comma(first));
      ValueIsCopied(field, items[0]);
      ItemsAreCopied(field, false, items[1..]);
      CopiedBoth(field, Comma(first), Print(items[0]));
      CopiedBoth(field, Comma(first) + Print(items[0]), Items(false, items[1..]));
    }
  }

  lemma NameIsCopied(field: Text, first: bool, m: Member)
    requires WellFormedMember(m)
    ensures Copied(field, (Comma(first) + Name(m)) + [COLON])
  {
    CopiedBytes(field, m.pre);
    CopiedLiteral(field, m.key);
    CopiedBytes(field, m.post);
    CopiedBytes(field, Comma(first));
    CopiedBytes(field, [COLON]);
    CopiedBoth(field, m.pre, Quoted(m.key));
    CopiedBoth(field, m.pre + Quoted(m.key), m.post);
    CopiedBoth(field, Comma(first), Name(m));
    CopiedBoth(field, Comma(first) + Name(m), [COLON]);
  }

  lemma {:induction false} MoreMembersAreCopied(field: Text, first: bool, members: seq<Member>)
    requires forall i | 0 <= i < |members| :: WellFormedMember(members[i])
    ensures Copied(field, Members(first, members))
    decreases members, 0
  {
    if members == [] {
      CopiedBytes(field, []);
    } else {
      var named := (Comma(first) + Name(members[0])) + [COLON];
      NameIsCopied(field, first, members[0]);
      ValueIsCopied(field, members[0].value);
      MoreMembersAreCopied(field, false, members[1..]);
      CopiedBoth(field, named, Print(members[0].value));
      CopiedBoth(field, named + Print(members[0].value), Members(false, members[1..]));
    }
  }

  lemma {:induction false} MembersAreCopied(field: Text, pad: Text, members: seq<Member>)
    requires White(pad) && forall i | 0 <= i < |members| :: WellFormedMember(members[i])
    ensures Copied(field, pad + Members(true, members))
    decreases members, 1
  {
    CopiedBytes(field, pad);
    MoreMembersAreCopied(field, true, members);
    CopiedBoth(field, pad, Members(true, members));
  }

  // ----- an element of the array is fired as printed -----

  /** The value without the white space around it. */
  function Core(v: Json): Json {
    match v
    case Padded(_, value, _) => Core(value)
    case _ => v
  }

  lemma {:induction false} CoreIsTheValue(v: Json) returns (pre: Text, post: Text)
    requires WellFormed(v)
    ensures !Core(v).Padded? && WellFormed(Core(v))
    ensures White(pre) && White(post) && Print(v) == pre + Print(Core(v)) + post
    decreases v
  {
    pre, post := [], [];
    if v.Padded? {
      pre, post := CoreIsTheValue(v.value);
      pre, post := v.pre + pre, post + v.post;
    }
  }

  lemma ObjectIsFiredAsPrinted(field: Text, name: Text, v: Json)
    requires v.Obj? && WellFormed(v)
    ensures Run(field, Idle(name), Print(v)) == Outcome(Idle(name), [Print(v)])
  {
    MembersAreCopied(field, v.pad, v.members);
    RunBraces(field, Idle(name), Step(field, Idle(name), OPEN_BRACE).state, v.pad + Members(true, v.members));
  }

  /** The scanner's object texts include every printed JSON object. */
  lemma PrintedObjectIsObjectText(v: Json)
    requires v.Obj? && WellFormed(v)
    ensures IsObjectText(Print(v))
  {
    ObjectIsFiredAsPrinted([], [], v);
    FiredHasLayout([], Idle([]), Print(v));
    var g: nat :| FirstElement(Print(v), g, Print(v)) && Layout(Print(v)[g + |Print(v)|..], [Print(v)][1..]);
  }

  lemma {:induction false} ItemIsFired(field: Text, name: Text, v: Json)
    requires WellFormed(v) && Core(v).Obj?
    ensures Run(field, Idle(name), Print(v)) == Outcome(Idle(name), [Print(Core(v))])
  {
    match v
    case Obj(_, _) =>
      ObjectIsFiredAsPrinted(field, name, v);
    case Padded(pre, value, post) =>
      GapIsSkipped(field, Idle(name), pre);
      GapIsSkipped(field, Idle(name), post);
      ItemIsFired(field, name, value);
      RunSplits(field, Idle(name), pre, Print(value));
      RunSplits(field, Idle(name), pre + Print(value), post);
  }

  /** The printed objects among the elements, white space around them dropped. */
  function Texts(items: seq<Json>): seq<Text> {
    if items == [] then [] else TextsOf(items[0]) + Texts(items[1..])
  }

  function TextsOf(v: Json): seq<Text> {
    if Core(v).Obj? then [Print(Core(v))] else []
  }

  /** An object, or a value in which there is neither '{' nor ']'. */
  ghost predicate ReadableItem(v: Json) {
    WellFormed(v) && (Core(v).Obj? || Gap(Print(v)))
  }

  ghost predicate ReadableItems(items: seq<Json>) {
    forall i | 0 <= i < |items| :: ReadableItem(items[i])
  }

  /** In particular every array of objects. */
  ghost predicate ReadableArray(v: Json) {
    Core(v).Arr? && ReadableItems(Core(v).items)
  }

  lemma {:induction false} ItemsAreFired(field: Text, name: Text, first: bool, items: seq<Json>)
    requires ReadableItems(items)
    ensures Run(field, Idle(name), Items(first, items)) == Outcome(Idle(name), Texts(items))
    decreases items
  {
    if items != [] {
      GapIsSkipped(field, Idle(name), Comma(first));
      if Core(items[0]).Obj? {
        ItemIsFired(field, name, items[0]);
      } else {
        GapIsSkipped(field, Idle(name), Print(items[0]));
      }
      ItemsAreFired(field, name, false, items[1..]);
      RunThree(field, Idle(name), Comma(first), Print(items[0]), Items(false, items[1..]));
      assert forall xs: seq<Text> :: [] + xs == xs;
    }
  }

  // ----- exactly which lists are read -----

  lemma {:induction false} InsideUntilFired(field: Text, s: State, x: Text)
    requires s.phase == InsideElement && Run(field, s, x).fired == []
    ensures Run(field, s, x).state.phase == InsideElement
    decreases |x|
  {
    if x != [] {
      InsideUntilFired(field, Step(field, s, x[0]).state, x[1..]);
    }
  }

  lemma LeavesIdle(field: Text, name: Text, x: Text)
    requires x != [] && (x[0] == OPEN_BRACE || x[0] == CLOSE_BRACKET)
    ensures Run(field, Idle(name), x) != Outcome(Idle(name), [])
  {
    var next := Step(field, Idle(name), x[0]).state;
    if x[0] == CLOSE_BRACKET {
      DoneIsAbsorbing(field, next, x[1..]);
    } else if Run(field, next, x[1..]).fired == [] {
      InsideUntilFired(field, next, x[1..]);
    }
  }

  /** Between elements exactly the texts without '{' and ']' leave everything as it is. */
  lemma {:induction false} IdleExactlyOverGaps(field: Text, name: Text, x: Text)
    ensures Run(field, Idle(name), x) == Outcome(Idle(name), []) <==> Gap(x)
    decreases |x|
  {
    if x != [] && x[0] != OPEN_BRACE && x[0] != CLOSE_BRACKET {
      IdleExactlyOverGaps(field, name, x[1..]);
      assert [x[0]] + x[1..] == x;
    } else if x != [] {
      LeavesIdle(field, name, x);
    }
  }

  function ItemText(first: bool, v: Json): Text {
    Comma(first) + Print(v)
  }

  lemma {:induction false} ItemsSnoc(first: bool, items: seq<Json>, v: Json)
    ensures Items(first, items + [v]) == Items(first, items) + ItemText(first && items == [], v)
    ensures Texts(items + [v]) == Texts(items) + TextsOf(v)
    decreases |items|
  {
    var all := items + [v];
    if items == [] {
      assert all == [v] && [v][1..] == [];
    } else {
      assert all[0] == items[0] && all[1..] == items[1..] + [v];
      ItemsSnoc(false, items[1..], v);
      Regroup(ItemText(first, items[0]), Items(false, items[1..]), ItemText(false, v));
      Regroup(TextsOf(items[0]), Texts(items[1..]), TextsOf(v));
    }
  }

  /** After its first `k` items the list has been read as its objects so far. */
  ghost predicate ReadSoFar(field: Text, name: Text, items: seq<Json>, k: nat)
    requires k <= |items|
  {
    Run(field, Idle(name), Items(true, items[..k])) == Outcome(Idle(name), Texts(items[..k]))
  }

  lemma NextItemIsSilent(field: Text, name: Text, items: seq<Json>, k: nat)
    requires k < |items| && !Core(items[k]).Obj?
    requires ReadSoFar(field, name, items, k) && ReadSoFar(field, name, items, k + 1)
    ensures Run(field, Idle(name), ItemText(items[..k] == [], items[k])) == Outcome(Idle(name), [])
  {
    var before, v := items[..k], items[k];
    var x := ItemText(before == [], v);
    assert items[..k + 1] == before + [v];
    ItemsSnoc(true, before, v);
    RunSplits(field, Idle(name), Items(true, before), x);
    SameTail(Texts(before), Run(field, Idle(name), x).fired, []);
  }

  lemma NextItemIsReadable(field: Text, name: Text, items: seq<Json>, k: nat)
    requires k < |items| && WellFormed(items[k])
    requires ReadSoFar(field, name, items, k) && ReadSoFar(field, name, items, k + 1)
    ensures ReadableItem(items[k])
  {
    if !Core(items[k]).Obj? {
      NextItemIsSilent(field, name, items, k);
      QuietItemIsReadable(field, name, items[..k] == [], items[k]);
    }
  }

  lemma QuietItemIsReadable(field: Text, name: Text, first: bool, v: Json)
    requires WellFormed(v) && Run(field, Idle(name), ItemText(first, v)) == Outcome(Idle(name), [])
    ensures ReadableItem(v)
  {
    var x := ItemText(first, v);
    IdleExactlyOverGaps(field, name, x);
    assert forall i | 0 <= i < |Print(v)| :: Print(v)[i] == x[|Comma(first)| + i];
  }

  lemma SameTail(before: seq<Text>, a: seq<Text>, b: seq<Text>)
    requires before + a == before + b
    ensures a == b
  {
    assert (before + a)[|before|..] == a && (before + b)[|before|..] == b;
  }

  /** A list is read as its objects, item by item, exactly when every item is an object or holds neither '{' nor ']'. */
  lemma ListIsReadExactlyWhen(field: Text, name: Text, items: seq<Json>)
    requires forall i | 0 <= i < |items| :: WellFormed(items[i])
    ensures (forall k | 0 <= k <= |items| :: ReadSoFar(field, name, items, k)) <==> ReadableItems(items)
  {
    if ReadableItems(items) {
      forall k | 0 <= k <= |items|
        ensures ReadSoFar(field, name, items, k)
      {
        ItemsAreFired(field, name, true, items[..k]);
      }
    }
    if forall k | 0 <= k <= |items| :: ReadSoFar(field, name, items, k) {
      forall k | 0 <= k < |items|
        ensures ReadableItem(items[k])
      {
        assert ReadSoFar(field, name, items, k + 1);
        NextItemIsReadable(field, name, items, k);
      }
    }
  }

  // ----- what a value does to the search -----

  /** The state of a search that has the key, or has not. */
  function At(field: Text, waiting: bool, name: Text): State {
    if waiting then Waiting(field) else Searching(name)
  }

  /** Reading `x` fires nothing and takes the search from one stage to the other. */
  ghost predicate Moves(field: Text, x: Text, from: bool, to: bool) {
    forall name {:trigger Run(field, At(field, from, name), x)} ::
      var o := Run(field, At(field, from, name), x); o == Outcome(At(field, to, o.state.fieldBuf), [])
  }

  /** Reading `x` fires `es`, whatever follows. */
  ghost predicate Yields(field: Text, x: Text, from: bool, es: seq<Text>) {
    forall name, rest {:trigger Run(field, At(field, from, name), x + rest)} ::
      Run(field, At(field, from, name), x + rest).fired == es
  }

  /** `x` does to a search what `s` says. */
  ghost predicate Reaches(field: Text, x: Text, from: bool, s: Sought) {
    match s
    case Pending(to) => Moves(field, x, from, to)
    case Opens(arr) => ReadableArray(arr) ==> Yields(field, x, from, Texts(Core(arr).items))
    case Astray => true
  }

  lemma MovesBoth(field: Text, x: Text, a: bool, b: bool, y: Text, c: bool)
    requires Moves(field, x, a, b) && Moves(field, y, b, c)
    ensures Moves(field, x + y, a, c)
  {
    forall name
      ensures var o := Run(field, At(field, a, name), x + y); o == Outcome(At(field, c, o.state.fieldBuf), [])
    {
      var mid := Run(field, At(field, a, name), x);
      assert mid.state == At(field, b, mid.state.fieldBuf);
      RunSplits(field, At(field, a, name), x, y);
    }
  }

  lemma YieldsAfter(field: Text, x: Text, a: bool, b: bool, y: Text, es: seq<Text>)
    requires Moves(field, x, a, b) && Yields(field, y, b, es)
    ensures Yields(field, x + y, a, es)
  {
    forall name, rest
      ensures Run(field, At(field, a, name), x + y + rest).fired == es
    {
      var mid := Run(field, At(field, a, name), x);
      assert Run(field, At(field, b, mid.state.fieldBuf), y + rest).fired == es;
      RunSplits(field, At(field, a, name), x, y + rest);
      Regroup(x, y, rest);
    }
  }

  lemma YieldsBefore(field: Text, x: Text, a: bool, y: Text, es: seq<Text>)
    requires Yields(field, x, a, es)
    ensures Yields(field, x + y, a, es)
  {
    forall name, rest
      ensures Run(field, At(field, a, name), x + y + rest).fired == es
    {
      assert Run(field, At(field, a, name), x + (y + rest)).fired == es;
      Regroup(x, y, rest);
    }
  }

  /** One text after the other: the second counts only while the search goes on. */
  lemma ReachesBoth(field: Text, x: Text, a: bool, s: Sought, y: Text, t: Sought)
    requires Reaches(field, x, a, s) && (s.Pending? ==> Reaches(field, y, s.waiting, t))
    ensures Reaches(field, x + y, a, if s.Pending? then t else s)
  {
    match s
    case Pending(b) =>
      if t.Pending? {
        MovesBoth(field, x, a, b, y, t.waiting);
      } else if t.Opens? && ReadableArray(t.arr) {
        YieldsAfter(field, x, a, b, y, Texts(Core(t.arr).items));
      }
    case Opens(arr) =>
      if ReadableArray(arr) {
        YieldsBefore(field, x, a, y, Texts(Core(arr).items));
      }
    case Astray =>
  }

  lemma {:induction false} BytesKeepTheName(field: Text, name: Text, x: Text)
    requires forall i | 0 <= i < |x| :: x[i] != QUOTE && x[i] != COLON
    ensures Run(field, Searching(name), x) == Outcome(Searching(name), [])
    decreases |x|
  {
    if x != [] {
      BytesKeepTheName(field, name, x[1..]);
    }
  }

  /** Bytes that mean nothing to a search: no quote, no colon, and no '[' once the key was found. */
  lemma BytesArePassed(field: Text, x: Text, waiting: bool)
    requires forall i | 0 <= i < |x| :: x[i] != QUOTE && x[i] != COLON
    requires waiting ==> NoBracket(x)
    ensures Reaches(field, x, waiting, Pending(waiting))
  {
    forall name
      ensures Run(field, At(field, waiting, name), x) == Outcome(At(field, waiting, name), [])
    {
      if waiting {
        NothingUntilBracket(field, field, x);
      } else {
        BytesKeepTheName(field, name, x);
      }
    }
  }

  lemma LiteralIsTheName(field: Text, name: Text, body: seq<Unit>)
    requires LegalBody(body)
    ensures Run(field, Searching(name), Quoted(body)) == Outcome(Searching(Strip(body)), [])
  {
    TokenIsSearched(field, name, Literal(body));
  }

  lemma NameIsTheKey(field: Text, name: Text, lead: Text, key: seq<Unit>, post: Text)
    requires forall i | 0 <= i < |lead| :: lead[i] != QUOTE && lead[i] != COLON
    requires LegalBody(key) && White(post)
    ensures Run(field, Searching(name), lead + Quoted(key) + post) == Outcome(Searching(Strip(key)), [])
  {
    BytesKeepTheName(field, name, lead);
    LiteralIsTheName(field, name, key);
    BytesKeepTheName(field, Strip(key), post);
    RunThree(field, Searching(name), lead, Quoted(key), post);
  }

  lemma RegroupName(a: Text, b: Text, c: Text, d: Text)
    ensures a + (b + c + d) == a + b + c + d
  {
  }

  lemma KeyIsTheName(field: Text, name: Text, first: bool, m: Member)
    requires WellFormedMember(m)
    ensures Run(field, Searching(name), Comma(first) + Name(m)) == Outcome(Searching(Strip(m.key)), [])
  {
    NameIsTheKey(field, name, Comma(first) + m.pre, m.key, m.post);
    RegroupName(Comma(first), m.pre, Quoted(m.key), m.post);
  }

  lemma LiteralIsPassed(field: Text, body: seq<Unit>, waiting: bool)
    requires LegalBody(body)
    ensures Reaches(field, Quoted(body), waiting, SeekText(body, waiting))
  {
    if waiting && NoBracket(Quoted(body)) {
      forall name
        ensures Run(field, At(field, true, name), Quoted(body)) == Outcome(At(field, true, name), [])
      {
        NothingUntilBracket(field, field, Quoted(body));
      }
    } else if !waiting {
      forall name
        ensures Run(field, At(field, false, name), Quoted(body)) == Outcome(At(field, false, Strip(body)), [])
      {
        LiteralIsTheName(field, name, body);
      }
    }
  }

  lemma ArrayBodyIsRead(field: Text, pad: Text, items: seq<Json>, rest: Text)
    requires White(pad) && ReadableItems(items)
    ensures Run(field, Idle(field), pad + Items(true, items) + ([CLOSE_BRACKET] + rest)).fired == Texts(items)
  {
    var closing := [CLOSE_BRACKET] + rest;
    GapIsSkipped(field, Idle(field), pad);
    ItemsAreFired(field, field, true, items);
    RunThree(field, Idle(field), pad, Items(true, items), closing);
    assert closing[0] == CLOSE_BRACKET && closing[1..] == rest;
    DoneIsAbsorbing(field, Step(field, Idle(field), CLOSE_BRACKET).state, rest);
    assert Run(field, Idle(field), closing).fired == [];
  }

  lemma RegroupFour(a: Text, b: Text, c: Text, d: Text)
    ensures a + b + c + d == a + (b + (c + d))
  {
  }

  lemma RegroupArray(open: Text, pad: Text, x: Text, close: Text, rest: Text)
    ensures open + (pad + x) + close + rest == open + (pad + x + (close + rest))
  {
  }

  /** The array that the field's key introduces is read from the ':' on. */
  lemma ArrayIsRead(field: Text, value: Json, rest: Text)
    requires WellFormed(value) && ReadableArray(value)
    ensures Run(field, Waiting(field), Print(value) + rest).fired == Texts(Core(value).items)
    decreases value
  {
    match value
    case Padded(pre, v, post) =>
      NothingUntilBracket(field, field, pre);
      ArrayIsRead(field, v, post + rest);
      RunSplits(field, Waiting(field), pre, Print(v) + (post + rest));
      RegroupFour(pre, Print(v), post, rest);
    case Arr(pad, items) =>
      var body := pad + Items(true, items) + ([CLOSE_BRACKET] + rest);
      RunByte(field, Waiting(field), OPEN_BRACKET);
      ArrayBodyIsRead(field, pad, items, rest);
      RunSplits(field, Waiting(field), [OPEN_BRACKET], body);
      RegroupArray([OPEN_BRACKET], pad, Items(true, items), [CLOSE_BRACKET], rest);
  }

  lemma KeyIsFound(field: Text, name: Text, first: bool, m: Member)
    requires WellFormedMember(m) && Strip(m.key) == field
    ensures Run(field, Searching(name), (Comma(first) + Name(m)) + [COLON]) == Outcome(Waiting(field), [])
  {
    KeyIsTheName(field, name, first, m);
    RunOfOne(field, Searching(name), Comma(first) + Name(m), COLON);
  }

  lemma WaitingKeyIsPassed(field: Text, first: bool, m: Member)
    requires WellFormedMember(m)
    ensures Reaches(field, (Comma(first) + Name(m)) + [COLON], true, SeekText(m.key, true))
  {
    if NoBracket(Quoted(m.key)) {
      assert NoBracket(Comma(first) + Name(m) + [COLON]);
      forall name
        ensures Run(field, At(field, true, name), Comma(first) + Name(m) + [COLON]) ==
                Outcome(At(field, true, name), [])
      {
        NothingUntilBracket(field, field, Comma(first) + Name(m) + [COLON]);
      }
    }
  }

  lemma KeyIsSought(field: Text, first: bool, m: Member, waiting: bool)
    requires WellFormedMember(m)
    ensures Reaches(field, (Comma(first) + Name(m)) + [COLON], waiting, SeekKey(field, m.key, waiting))
  {
    if waiting {
      WaitingKeyIsPassed(field, first, m);
    } else {
      var key := Comma(first) + Name(m);
      forall name
        ensures Run(field, At(field, false, name), key + [COLON]) ==
                Outcome(At(field, Strip(m.key) == field, Strip(m.key)), [])
      {
        KeyIsTheName(field, name, first, m);
        RunOfOne(field, Searching(name), key, COLON);
      }
    }
  }

  lemma ReachesBetween(field: Text, open: byte, pad: Text, x: Text, close: byte, waiting: bool, s: Sought)
    requires open != QUOTE && open != COLON && (waiting ==> open != OPEN_BRACKET)
    requires close != QUOTE && close != COLON && close != OPEN_BRACKET
    requires White(pad) && Reaches(field, x, waiting, s)
    ensures Reaches(field, [open] + (pad + x) + [close], waiting, s)
  {
    BytesArePassed(field, pad, waiting);
    ReachesBoth(field, pad, waiting, Pending(waiting), x, s);
    BytesArePassed(field, [open], waiting);
    ReachesBoth(field, [open], waiting, Pending(waiting), pad + x, s);
    if s.Pending? {
      BytesArePassed(field, [close], s.waiting);
    }
    ReachesBoth(field, [open] + (pad + x), waiting, s, [close], s);
  }

  lemma OpenedArrayIsRead(field: Text, v: Json)
    requires WellFormed(v) && v.Arr?
    ensures Reaches(field, Print(v), true, Opens(v))
  {
    if ReadableArray(v) {
      forall name, rest
        ensures Run(field, At(field, true, name), Print(v) + rest).fired == Texts(v.items)
      {
        ArrayIsRead(field, v, rest);
      }
    }
  }

  lemma {:induction false} ValueIsSought(field: Text, v: Json, waiting: bool)
    requires WellFormed(v)
    ensures Reaches(field, Print(v), waiting, Seek(field, v, waiting))
    decreases v, 1
  {
    match v
    case Scalar(text) =>
      BytesArePassed(field, text, waiting);
    case Str(body) =>
      LiteralIsPassed(field, body, waiting);
    case Arr(pad, items) =>
      if waiting {
        OpenedArrayIsRead(field, v);
      } else {
        ItemsAreSought(field, true, items, false);
        ReachesBetween(field, OPEN_BRACKET, pad, Items(true, items), CLOSE_BRACKET, false,
                       SeekItems(field, items, false));
      }
    case Obj(pad, members) =>
      MembersAreSought(field, true, members, waiting);
      ReachesBetween(field, OPEN_BRACE, pad, Members(true, members), CLOSE_BRACE, waiting,
                     SeekMembers(field, members, waiting));
    case Padded(pre, value, post) =>
      var s := Seek(field, value, waiting);
      BytesArePassed(field, pre, waiting);
      ValueIsSought(field, value, waiting);
      ReachesBoth(field, pre, waiting, Pending(waiting), Print(value), s);
      if s.Pending? {
        BytesArePassed(field, post, s.waiting);
      }
      ReachesBoth(field, pre + Print(value), waiting, s, post, s);
  }

  lemma {:induction false} ItemsAreSought(field: Text, first: bool, items: seq<Json>, waiting: bool)
    requires forall i | 0 <= i < |items| :: WellFormed(items[i])
    ensures Reaches(field, Items(first, items), waiting, SeekItems(field, items, waiting))
    decreases items, 0
  {
    if items == [] {
      BytesArePassed(field, [], waiting);
    } else {
      var here := Seek(field, items[0], waiting);
      BytesArePassed(field, Comma(first), waiting);
      ValueIsSought(field, items[0], waiting);
      ReachesBoth(field, Comma(first), waiting, Pending(waiting), Print(items[0]), here);
      if here.Pending? {
        ItemsAreSought(field, false, items[1..], here.waiting);
      }
      ReachesBoth(field, Comma(first) + Print(items[0]), waiting, here, Items(false, items[1..]),
                  SeekItems(field, items, waiting));
    }
  }

  lemma {:induction false} MembersAreSought(field: Text, first: bool, members: seq<Member>, waiting: bool)
    requires forall i | 0 <= i < |members| :: WellFormedMember(members[i])
    ensures Reaches(field, Members(first, members), waiting, SeekMembers(field, members, waiting))
    decreases members, 0
  {
    if members == [] {
      BytesArePassed(field, [], waiting);
    } else {
      var m, named := members[0], (Comma(first) + Name(members[0])) + [COLON];
      var key := SeekKey(field, m.key, waiting);
      KeyIsSought(field, first, m, waiting);
      var here := if key.Pending? then Seek(field, m.value, key.waiting) else key;
      if key.Pending? {
        ValueIsSought(field, m.value, key.waiting);
      }
      ReachesBoth(field, named, waiting, key, Print(m.value), here);
      if here.Pending? {
        MembersAreSought(field, false, members[1..], here.waiting);
      }
      ReachesBoth(field, named + Print(m.value), waiting, here, Members(false, members[1..]),
                  SeekMembers(field, members, waiting));
    }
  }

  // ----- the round trip -----

  /**
   The round trip, for any JSON document with white space before it. The array at
   which the search ends is read: if its items are objects, or hold neither '{'
   nor ']', exactly the objects are fired, in order and byte for byte, whatever
   follows the document. A search that does not end fires nothing.
   */
  lemma RoundTrip(field: Text, lead: Text, doc: Json, trail: Text)
    requires White(lead) && WellFormed(doc)
    ensures match Seek(field, doc, false)
            case Pending(_) => White(trail) ==> Elements(field, lead + Print(doc) + trail) == []
            case Opens(arr) =>
              ReadableArray(arr) ==> Elements(field, lead + Print(doc) + trail) == Texts(Core(arr).items)
            case Astray => true
  {
    var s := Seek(field, doc, false);
    BytesArePassed(field, lead, false);
    ValueIsSought(field, doc, false);
    ReachesBoth(field, lead, false, Pending(false), Print(doc), s);
    assert START == At(field, false, []);
    if s.Pending? && White(trail) {
      BytesArePassed(field, trail, s.waiting);
      ReachesBoth(field, lead + Print(doc), false, s, trail, s);
    }
  }

  // ----- when the array read is the right one -----

  lemma NoBracketBoth(x: Text, y: Text)
    ensures NoBracket(x + y) <==> NoBracket(x) && NoBracket(y)
  {
    assert forall i | 0 <= i < |x| :: (x + y)[i] == x[i];
    assert forall i | 0 <= i < |y| :: (x + y)[|x| + i] == y[i];
  }

  lemma NameHasBracketInKey(first: bool, m: Member)
    requires WellFormedMember(m)
    ensures NoBracket((Comma(first) + Name(m)) + [COLON]) <==> NoBracket(Quoted(m.key))
  {
    NoBracketBoth(Comma(first) + Name(m), [COLON]);
    NoBracketBoth(Comma(first), Name(m));
    NoBracketBoth(m.pre + Quoted(m.key), m.post);
    NoBracketBoth(m.pre, Quoted(m.key));
  }

  /** A value goes by while the search waits exactly when it holds no '['. */
  lemma {:induction false} ValueGoesByExactlyWhen(field: Text, v: Json)
    requires WellFormed(v)
    ensures Seek(field, v, true) == Pending(true) <==> NoBracket(Print(v))
    decreases v, 1
  {
    match v
    case Scalar(_) =>
    case Str(_) =>
    case Arr(pad, items) =>
      assert Print(v)[0] == OPEN_BRACKET;
    case Obj(pad, members) =>
      MembersGoByExactlyWhen(field, true, members);
      NoBracketBoth([OPEN_BRACE] + (pad + Members(true, members)), [CLOSE_BRACE]);
      NoBracketBoth([OPEN_BRACE], pad + Members(true, members));
      NoBracketBoth(pad, Members(true, members));
    case Padded(pre, value, post) =>
      ValueGoesByExactlyWhen(field, value);
      NoBracketBoth(pre + Print(value), post);
      NoBracketBoth(pre, Print(value));
  }

  lemma {:induction false} MembersGoByExactlyWhen(field: Text, first: bool, members: seq<Member>)
    requires forall i | 0 <= i < |members| :: WellFormedMember(members[i])
    ensures SeekMembers(field, members, true) == Pending(true) <==> NoBracket(Members(first, members))
    decreases members, 0
  {
    if members != [] {
      var m := members[0];
      var named := (Comma(first) + Name(m)) + [COLON];
      NameHasBracketInKey(first, m);
      ValueGoesByExactlyWhen(field, m.value);
      SeekIsSane(field, m.value, true);
      MembersGoByExactlyWhen(field, false, members[1..]);
      NoBracketBoth(named + Print(m.value), Members(false, members[1..]));
      NoBracketBoth(named, Print(m.value));
    }
  }

  lemma {:induction false} ArrayIsOpened(field: Text, v: Json)
    requires Core(v).Arr?
    ensures Seek(field, v, true) == Opens(Core(v))
    decreases v
  {
    if v.Padded? {
      ArrayIsOpened(field, v.value);
    }
  }

  /** A search ends at an array, and once it waits it does not go back. */
  ghost predicate Sane(s: Sought, waiting: bool) {
    (s.Opens? ==> s.arr.Arr?) && (waiting && s.Pending? ==> s.waiting)
  }

  lemma {:induction false} SeekIsSane(field: Text, v: Json, waiting: bool)
    ensures Sane(Seek(field, v, waiting), waiting)
    decreases v, 1
  {
    match v
    case Scalar(_) =>
    case Str(_) =>
    case Arr(_, items) => SeekItemsIsSane(field, items, false);
    case Obj(_, members) => SeekMembersIsSane(field, members, waiting);
    case Padded(_, value, _) => SeekIsSane(field, value, waiting);
  }

  lemma {:induction false} SeekItemsIsSane(field: Text, items: seq<Json>, waiting: bool)
    ensures Sane(SeekItems(field, items, waiting), waiting)
    decreases items, 0
  {
    if items != [] {
      var here := Seek(field, items[0], waiting);
      SeekIsSane(field, items[0], waiting);
      if here.Pending? {
        SeekItemsIsSane(field, items[1..], here.waiting);
      }
    }
  }

  lemma {:induction false} SeekMembersIsSane(field: Text, members: seq<Member>, waiting: bool)
    ensures Sane(SeekMembers(field, members, waiting), waiting)
    decreases members, 0
  {
    if members != [] {
      var named := SeekKey(field, members[0].key, waiting);
      if named.Pending? {
        var here := Seek(field, members[0].value, named.waiting);
        SeekIsSane(field, members[0].value, named.waiting);
        if here.Pending? {
          SeekMembersIsSane(field, members[1..], here.waiting);
        }
      }
    }
  }

  /** `s` is where the search for a key with this first value ends. */
  ghost predicate Matches(found: Option<Json>, s: Sought) {
    match found
    case None => s == Pending(false)
    case Some(v) => if Core(v).Arr? then s == Opens(Core(v)) else s != Pending(false) && s != Opens(Core(v))
  }

  lemma ValueMatches(field: Text, v: Json)
    ensures Matches(Some(v), Seek(field, v, true))
  {
    SeekIsSane(field, v, true);
    if Core(v).Arr? {
      ArrayIsOpened(field, v);
    }
  }

  lemma {:induction false} FoundMatches(field: Text, v: Json)
    ensures Matches(Found(field, v), Seek(field, v, false))
    decreases v, 1
  {
    match v
    case Scalar(_) =>
    case Str(_) =>
    case Arr(_, items) => FoundInItemsMatches(field, items);
    case Obj(_, members) => FoundInMembersMatches(field, members);
    case Padded(_, value, _) => FoundMatches(field, value);
  }

  lemma {:induction false} FoundInItemsMatches(field: Text, items: seq<Json>)
    ensures Matches(FoundInItems(field, items), SeekItems(field, items, false))
    decreases items, 0
  {
    if items != [] {
      var here := Seek(field, items[0], false);
      FoundMatches(field, items[0]);
      if here == Pending(false) {
        FoundInItemsMatches(field, items[1..]);
      } else if here.Pending? {
        SeekItemsIsSane(field, items[1..], true);
      }
    }
  }

  lemma {:induction false} FoundInMembersMatches(field: Text, members: seq<Member>)
    ensures Matches(FoundInMembers(field, members), SeekMembers(field, members, false))
    decreases members, 0
  {
    if members != [] {
      var named := Strip(members[0].key) == field;
      var here := Seek(field, members[0].value, named);
      if named {
        ValueMatches(field, members[0].value);
      } else {
        FoundMatches(field, members[0].value);
      }
      if here == Pending(false) {
        FoundInMembersMatches(field, members[1..]);
      } else if here.Pending? {
        SeekMembersIsSane(field, members[1..], true);
      }
    }
  }

  /**
   The array that is read is the value of the first member named by the field
   exactly when that value is an array; otherwise the search goes on past it.
   */
  lemma FirstValueIsReadExactlyWhen(field: Text, doc: Json)
    ensures Found(field, doc).None? <==> Seek(field, doc, false) == Pending(false)
    ensures Found(field, doc).Some? ==>
              var v := Core(Found(field, doc).value);
              Seek(field, doc, false) == Opens(v) <==> v.Arr?
  {
    FoundMatches(field, doc);
    SeekIsSane(field, doc, false);
  }

  lemma {:induction false} BracketEndsTheWait(field: Text, x: Text)
    requires !NoBracket(x)
    ensures Run(field, Waiting(field), x) != Outcome(Waiting(field), [])
    decreases |x|
  {
    if x[0] == OPEN_BRACKET {
      if !PastSearch(Run(field, Idle(field), x[1..]).state) {
        NothingBeforeTheOpening(field, Idle(field), x[1..]);
      }
    } else {
      BracketEndsTheWait(field, x[1..]);
    }
  }

  /** Waiting for the array, exactly the values without a '[' are skipped. */
  lemma SkippedExactlyWithoutBracket(field: Text, x: Text)
    ensures Run(field, Waiting(field), x) == Outcome(Waiting(field), []) <==> NoBracket(x)
  {
    if NoBracket(x) {
      NothingUntilBracket(field, field, x);
    } else {
      BracketEndsTheWait(field, x);
    }
  }
}
