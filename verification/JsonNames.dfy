/**
 What a key means in JSON (RFC 8259, section 7) against what the extractor takes
 it for, and documents on which the extractor and JSON part.
 */
module JsonNames {
  import opened Basics
  import opened Bytes
  import opened StreamParser
  import opened ElementLayout
  import opened FieldSearch
  import opened JsonText

  const SLASH: byte := 0x2F
  const LETTER_U: byte := 0x75

  function HexValue(c: byte): Option<nat> {
    if 0x30 <= c <= 0x39 then Some(c as nat - 0x30)
    else if 0x41 <= c <= 0x46 then Some(c as nat - 0x37)
    else if 0x61 <= c <= 0x66 then Some(c as nat - 0x57)
    else None
  }

  /** The number that the first four characters spell in hexadecimal. */
  function Hex4(body: seq<Unit>): (n: Option<nat>)
    ensures n.Some? ==> |body| >= 4 && n.value < 0x10000
  {
    if |body| < 4 || !(body[0].Plain? && body[1].Plain? && body[2].Plain? && body[3].Plain?) then None
    else
      match (HexValue(body[0].c), HexValue(body[1].c), HexValue(body[2].c), HexValue(body[3].c))
      case (Some(a), Some(b), Some(c), Some(d)) =>
        assert a < 16 && b < 16 && c < 16 && d < 16;
        Some(((a * 16 + b) * 16 + c) * 16 + d)
      case _ => None
  }

  /** The UTF-8 encoding of a code point (RFC 3629, section 3). */
  function Utf8(code: nat): Text
    requires code < 0x110000
  {
    if code < 0x80 then [code as byte]
    else if code < 0x800 then [(0xC0 + code / 0x40) as byte, Tail(code)]
    else if code < 0x10000 then [(0xE0 + code / 0x1000) as byte, Tail(code / 0x40), Tail(code)]
    else [(0xF0 + code / 0x40000) as byte, Tail(code / 0x1000), Tail(code / 0x40), Tail(code)]
  }

  function Tail(code: nat): byte {
    (0x80 + code % 0x40) as byte
  }

  predicate HighSurrogate(n: nat) {
    0xD800 <= n < 0xDC00
  }

  predicate LowSurrogate(n: nat) {
    0xDC00 <= n < 0xE000
  }

  /** Two escapes that together spell one code point beyond 0xFFFF. */
  predicate SurrogatePair(body: seq<Unit>) {
    && |body| >= 6 && Hex4(body).Some? && HighSurrogate(Hex4(body).value)
    && body[4] == Escaped(LETTER_U) && Hex4(body[5..]).Some? && LowSurrogate(Hex4(body[5..]).value)
  }

  function PairCode(body: seq<Unit>): (code: nat)
    requires SurrogatePair(body)
    ensures code < 0x110000
  {
    0x10000 + (Hex4(body).value - 0xD800) * 0x400 + (Hex4(body[5..]).value - 0xDC00)
  }

  /** A surrogate without its partner becomes the replacement character. */
  function SingleCode(n: nat): nat {
    if HighSurrogate(n) || LowSurrogate(n) then 0xFFFD else n
  }

  function ShortEscape(c: byte): Option<byte> {
    if c == QUOTE || c == BACKSLASH || c == SLASH then Some(c)
    else if c == 0x62 then Some(0x08)
    else if c == 0x66 then Some(0x0C)
    else if c == 0x6E then Some(0x0A)
    else if c == 0x72 then Some(0x0D)
    else if c == 0x74 then Some(0x09)
    else None
  }

  /** The text of an escape of the form `\uXXXX`, or of two that pair up, and how many characters it is written with. */
  function HexEscape(body: seq<Unit>): (r: Option<(Text, nat)>)
    requires body != []
    ensures r.Some? ==> |r.value.0| < r.value.1 <= |body|
  {
    if Hex4(body[1..]).None? then None
    else if SurrogatePair(body[1..]) then Some((Utf8(PairCode(body[1..])), 10))
    else Some((Utf8(SingleCode(Hex4(body[1..]).value)), 5))
  }

  /** The first character that a literal's body stands for, and how many it is written with. */
  function FirstChar(body: seq<Unit>): (r: Option<(Text, nat)>)
    requires body != []
    ensures r.Some? ==> 1 <= r.value.1 <= |body|
  {
    match body[0]
    case Plain(c) => if c < 0x20 then None else Some(([c], 1))
    case Escaped(c) =>
      if c == LETTER_U then HexEscape(body)
      else if ShortEscape(c).Some? then Some(([ShortEscape(c).value], 1))
      else None
  }

  /** The text that a literal's body stands for; none if it is not a JSON string. */
  function Decode(body: seq<Unit>): Option<Text>
    decreases |body|
  {
    if body == [] then Some([])
    else
      match FirstChar(body)
      case None => None
      case Some((x, n)) =>
        var rest := Decode(body[n..]);
        if rest.Some? then Some(x + rest.value) else None
  }

  // ----- decoding against dropping backslashes -----

  lemma {:induction false} StripCons(u: Unit, rest: seq<Unit>)
    ensures Strip([u] + rest) == [u.c] + Strip(rest)
    decreases |rest|
  {
    if rest == [] {
      assert [u] + rest == [] + [u];
      StripSnoc([], u);
    } else {
      var before, last := rest[..|rest| - 1], rest[|rest| - 1];
      StripCons(u, before);
      assert [u] + rest == [u] + before + [last] && before + [last] == rest;
      StripSnoc([u] + before, last);
    }
  }

  lemma StripFirst(body: seq<Unit>)
    requires body != []
    ensures Strip(body) == [body[0].c] + Strip(body[1..])
  {
    StripCons(body[0], body[1..]);
    assert [body[0]] + body[1..] == body;
  }

  lemma {:induction false} StripIsEachCharacter(body: seq<Unit>)
    ensures |Strip(body)| == |body| && forall i | 0 <= i < |body| :: Strip(body)[i] == body[i].c
    decreases |body|
  {
    if body != [] {
      StripIsEachCharacter(body[..|body| - 1]);
    }
  }

  lemma {:induction false} DecodedIsNoLonger(body: seq<Unit>)
    requires Decode(body).Some?
    ensures |Decode(body).value| <= |body|
    ensures body != [] && body[0] == Escaped(LETTER_U) ==> |Decode(body).value| < |body|
    decreases |body|
  {
    if body != [] {
      DecodedIsNoLonger(body[FirstChar(body).value.1..]);
    }
  }

  /** Every escape stands for the very character behind its backslash. */
  predicate PlainEscapes(body: seq<Unit>) {
    forall i | 0 <= i < |body| && body[i].Escaped? :: body[i].c == QUOTE || body[i].c == BACKSLASH || body[i].c == SLASH
  }

  lemma PlainEscapesFirst(body: seq<Unit>)
    requires body != []
    ensures PlainEscapes(body) <==> PlainEscapes(body[..1]) && PlainEscapes(body[1..])
  {
    assert forall i | 1 <= i < |body| :: body[i] == body[1..][i - 1];
  }

  /** Dropping backslashes decodes a JSON string exactly when no escape in it means another character. */
  lemma {:induction false} StripDecodesExactlyWhen(body: seq<Unit>)
    requires Decode(body).Some?
    ensures Strip(body) == Decode(body).value <==> PlainEscapes(body)
    decreases |body|
  {
    if body != [] {
      PlainEscapesFirst(body);
      if body[0] == Escaped(LETTER_U) {
        StripIsEachCharacter(body);
        DecodedIsNoLonger(body);
      } else {
        StripFirst(body);
        StripDecodesExactlyWhen(body[1..]);
        FirstByte(FirstChar(body).value.0[0], Decode(body[1..]).value, body[0].c, Strip(body[1..]));
      }
    }
  }

  lemma FirstByte(x: byte, s: Text, y: byte, t: Text)
    ensures [x] + s == [y] + t <==> x == y && s == t
  {
    assert ([x] + s)[0] == x && ([x] + s)[1..] == s && ([y] + t)[0] == y && ([y] + t)[1..] == t;
  }

  /** Known values (RFC 8259, section 7, and RFC 3629): the short escapes, and codes of one to four bytes. */
  lemma DecodedForms()
    ensures ShortEscape(0x22) == Some(0x22) && ShortEscape(0x5C) == Some(0x5C) && ShortEscape(0x2F) == Some(0x2F)
    ensures ShortEscape(0x62) == Some(0x08) && ShortEscape(0x66) == Some(0x0C) && ShortEscape(0x6E) == Some(0x0A)
    ensures ShortEscape(0x72) == Some(0x0D) && ShortEscape(0x74) == Some(0x09)
    ensures Utf8(0x24) == [0x24] && Utf8(0xE9) == [0xC3, 0xA9] && Utf8(0x20AC) == [0xE2, 0x82, 0xAC]
    ensures Utf8(0x1F600) == [0xF0, 0x9F, 0x98, 0x80]
  {
  }

  /** One coded character: a half of a pair by itself stands for the replacement character. */
  lemma LoneCodeDecodes(a: seq<Unit>)
    requires |a| == 4 && Hex4(a).Some?
    ensures var n := Hex4(a).value;
            Decode([Escaped(0x75)] + a) == Some(Utf8(if 0xD800 <= n < 0xE000 then 0xFFFD else n))
  {
    var body := [Escaped(LETTER_U)] + a;
    assert body[1..] == a && body[5..] == [];
    assert Decode([]) == Some([]);
    assert Utf8(SingleCode(Hex4(a).value)) + [] == Utf8(SingleCode(Hex4(a).value));
  }

  /** Two that pair up stand for one code point beyond 0xFFFF (RFC 8259, section 7). */
  lemma PairedCodesDecode(a: seq<Unit>, b: seq<Unit>)
    requires |a| == |b| == 4 && Hex4(a).Some? && Hex4(b).Some?
    requires 0xD800 <= Hex4(a).value < 0xDC00 && 0xDC00 <= Hex4(b).value < 0xE000
    ensures Decode([Escaped(0x75)] + a + [Escaped(0x75)] + b) ==
            Some(Utf8(0x10000 + 0x400 * (Hex4(a).value - 0xD800) + (Hex4(b).value - 0xDC00)))
  {
    var u := Escaped(LETTER_U);
    var body, t := [u] + a + [u] + b, a + [u] + b;
    assert body[1..] == t && body[10..] == [] && t[5..] == b;
    assert t[0] == a[0] && t[1] == a[1] && t[2] == a[2] && t[3] == a[3];
    assert Hex4(t) == Hex4(a);
    assert Decode([]) == Some([]);
    var code := Utf8(PairCode(t));
    assert code + [] == code;
  }

  // ----- which keys open the array -----

  const EMPTY_OBJECT := Obj([], [])

  function OneMember(key: seq<Unit>, value: Json): Json {
    Obj([], [Member([], key, [], value)])
  }

  function OneItem(item: Json): Json {
    Arr([], [item])
  }

  lemma OneItemIsReadable()
    ensures Texts([EMPTY_OBJECT]) == [Print(EMPTY_OBJECT)] && ReadableArray(OneItem(EMPTY_OBJECT))
    ensures WellFormed(OneItem(EMPTY_OBJECT))
  {
  }

  /** Where the search stands after one member. */
  function SeekMember(field: Text, m: Member, waiting: bool): Sought {
    var named := SeekKey(field, m.key, waiting);
    if named.Pending? then Seek(field, m.value, named.waiting) else named
  }

  lemma FirstMemberIsSought(field: Text, m: Member, rest: seq<Member>, waiting: bool)
    ensures SeekMembers(field, [m] + rest, waiting) ==
            var here := SeekMember(field, m, waiting);
            if here.Pending? then SeekMembers(field, rest, here.waiting) else here
  {
    assert ([m] + rest)[0] == m && ([m] + rest)[1..] == rest;
  }

  lemma LastMemberIsSought(field: Text, m: Member, waiting: bool)
    ensures SeekMembers(field, [m], waiting) == SeekMember(field, m, waiting)
  {
    FirstMemberIsSought(field, m, [], waiting);
    assert [m] + [] == [m];
    var here := SeekMember(field, m, waiting);
    assert here.Pending? ==> SeekMembers(field, [], here.waiting) == here;
  }

  lemma OneMemberIsSought(field: Text, key: seq<Unit>, value: Json)
    ensures Seek(field, OneMember(key, value), false) == Seek(field, value, Strip(key) == field)
  {
    LastMemberIsSought(field, Member([], key, [], value), false);
  }

  lemma EmptyItemIsSought(field: Text, waiting: bool)
    ensures Seek(field, OneItem(EMPTY_OBJECT), waiting) ==
            if waiting then Opens(OneItem(EMPTY_OBJECT)) else Pending(false)
  {
    assert [EMPTY_OBJECT][1..] == [];
    assert Seek(field, EMPTY_OBJECT, false) == Pending(false);
  }

  lemma NothingAround(x: Text)
    ensures [] + x + [] == x
  {
  }

  /** The key of a document with one array opens it exactly when it is the field's name with backslashes dropped. */
  lemma KeyOpensExactlyWhen(field: Text, key: seq<Unit>)
    requires LegalBody(key)
    ensures Elements(field, Print(OneMember(key, OneItem(EMPTY_OBJECT)))) ==
            if Strip(key) == field then [Print(EMPTY_OBJECT)] else []
  {
    var doc := OneMember(key, OneItem(EMPTY_OBJECT));
    OneItemIsReadable();
    OneMemberIsSought(field, key, OneItem(EMPTY_OBJECT));
    EmptyItemIsSought(field, Strip(key) == field);
    RoundTrip(field, [], doc, []);
    NothingAround(Print(doc));
  }

  /**
   The extractor opens the array for the fields that the key names in JSON, and
   for no others, exactly when no escape in the key means another character.
   */
  lemma KeyIsReadAsJsonExactlyWhen(key: seq<Unit>)
    requires LegalBody(key) && Decode(key).Some?
    ensures (forall field :: Elements(field, Print(OneMember(key, OneItem(EMPTY_OBJECT)))) ==
                             if Decode(key).value == field then [Print(EMPTY_OBJECT)] else [])
            <==> PlainEscapes(key)
  {
    StripDecodesExactlyWhen(key);
    forall field {
      KeyOpensExactlyWhen(field, key);
    }
    KeyOpensExactlyWhen(Decode(key).value, key);
  }

  // ----- documents that are misread -----

  function Letters(x: Text): seq<Unit> {
    seq(|x|, i requires 0 <= i < |x| => Plain(x[i]))
  }

  lemma {:induction false} LettersDecode(x: Text)
    requires forall i | 0 <= i < |x| :: x[i] >= 0x20
    ensures Decode(Letters(x)) == Some(x)
    decreases |x|
  {
    if x != [] {
      LettersDecode(x[1..]);
      assert Letters(x)[1..] == Letters(x[1..]);
      assert [x[0]] + x[1..] == x;
    }
  }

  lemma DecodeFirst(first: seq<Unit>, rest: seq<Unit>, x: Text, y: Text)
    requires first != [] && FirstChar(first + rest) == Some((x, |first|)) && Decode(rest) == Some(y)
    ensures Decode(first + rest) == Some(x + y)
  {
    assert (first + rest)[|first|..] == rest;
  }

  /** `items` with its t behind a backslash: in JSON the name of another field, with a tab in it. */
  const TABBED: seq<Unit> := [Plain(0x69)] + ([Escaped(0x74)] + Letters([0x65, 0x6D, 0x73]))

  /** `items` with its i written as the escape of code 0069. */
  const CODED: seq<Unit> :=
    [Escaped(LETTER_U), Plain(0x30), Plain(0x30), Plain(0x36), Plain(0x39)] + Letters([0x74, 0x65, 0x6D, 0x73])

  lemma {:induction false} LettersAreThemselves(x: Text)
    ensures Strip(Letters(x)) == x
    decreases |x|
  {
    if x != [] {
      LettersAreThemselves(x[..|x| - 1]);
      assert Letters(x)[..|x| - 1] == Letters(x[..|x| - 1]);
    }
  }

  lemma TabbedKeyIsStripped()
    ensures Strip(TABBED) == ITEMS
  {
    var ems: Text := [0x65, 0x6D, 0x73];
    LettersAreThemselves(ems);
    StripCons(Escaped(0x74), Letters(ems));
    StripCons(Plain(0x69), [Escaped(0x74)] + Letters(ems));
    assert [0x69] + ([0x74] + ems) == ITEMS;
  }

  /** A key that means another field opens the array. */
  lemma TabbedKeyIsMisread()
    ensures Decode(TABBED) == Some([0x69, 0x09, 0x65, 0x6D, 0x73])
    ensures Elements(ITEMS, Print(OneMember(TABBED, OneItem(EMPTY_OBJECT)))) == [Print(EMPTY_OBJECT)]
  {
    var ems: Text := [0x65, 0x6D, 0x73];
    LettersDecode(ems);
    DecodeFirst([Escaped(0x74)], Letters(ems), [0x09], ems);
    DecodeFirst([Plain(0x69)], [Escaped(0x74)] + Letters(ems), [0x69], [0x09] + ems);
    assert [0x69] + ([0x09] + ems) == [0x69, 0x09, 0x65, 0x6D, 0x73];
    TabbedKeyIsStripped();
    KeyOpensExactlyWhen(ITEMS, TABBED);
  }

  /** A key that means `items` does not open it. */
  lemma CodedKeyIsMisread()
    ensures Decode(CODED) == Some(ITEMS)
    ensures Elements(ITEMS, Print(OneMember(CODED, OneItem(EMPTY_OBJECT)))) == []
  {
    var tems: Text := [0x74, 0x65, 0x6D, 0x73];
    LettersDecode(tems);
    CodedLetter();
    DecodeFirst(CODED[..5], Letters(tems), [0x69], tems);
    assert CODED[..5] + Letters(tems) == CODED && [0x69] + tems == ITEMS;
    StripIsEachCharacter(CODED);
    KeyOpensExactlyWhen(ITEMS, CODED);
  }

  lemma CodedLetter()
    ensures FirstChar(CODED) == Some(([0x69], 5))
  {
    var body := CODED[1..];
    assert body[0] == Plain(0x30) && body[1] == Plain(0x30) && body[2] == Plain(0x36) && body[3] == Plain(0x39);
    assert Hex4(body) == Some(0x69);
    assert CODED[0] == Escaped(LETTER_U);
  }

  function TwoMembers(a: seq<Unit>, x: Json, b: seq<Unit>, y: Json): Json {
    Obj([], [Member([], a, [], x), Member([], b, [], y)])
  }

  lemma TwoMembersAreSought(field: Text, a: seq<Unit>, x: Json, b: seq<Unit>, y: Json)
    ensures var here := Seek(field, x, Strip(a) == field);
            Seek(field, TwoMembers(a, x, b, y), false) ==
            if here.Pending? then SeekMember(field, Member([], b, [], y), here.waiting) else here
  {
    var m, n := Member([], a, [], x), Member([], b, [], y);
    var here := Seek(field, x, Strip(a) == field);
    FirstMemberIsSought(field, m, [n], false);
    assert [m] + [n] == [m, n];
    if here.Pending? {
      LastMemberIsSought(field, n, here.waiting);
    }
  }

  lemma TwoMembersAreWellFormed(a: seq<Unit>, x: Json, b: seq<Unit>, y: Json)
    requires LegalBody(a) && WellFormed(x) && LegalBody(b) && WellFormed(y)
    ensures WellFormed(TwoMembers(a, x, b, y))
  {
  }

  /** `{other: {field: inner}, field: outer}` gives the nested array. */
  lemma NestedKeyWins(field: Text, key: seq<Unit>, other: seq<Unit>, inner: Json, outer: Json)
    requires LegalBody(key) && Strip(key) == field && LegalBody(other) && Strip(other) != field
    requires WellFormed(inner) && WellFormed(outer) && ReadableArray(inner)
    ensures Elements(field, Print(TwoMembers(other, OneMember(key, inner), key, outer))) == Texts(Core(inner).items)
  {
    var nested := OneMember(key, inner);
    var doc := TwoMembers(other, nested, key, outer);
    OneMemberIsSought(field, key, inner);
    ArrayIsOpened(field, inner);
    TwoMembersAreSought(field, other, nested, key, outer);
    TwoMembersAreWellFormed(other, nested, key, outer);
    RoundTrip(field, [], doc, []);
    NothingAround(Print(doc));
  }

  /** `{field: value, other: next}` gives the next array when the field's value, say null, holds no '['. */
  lemma NoArrayGivesTheNext(field: Text, key: seq<Unit>, value: Json, other: seq<Unit>, next: Json)
    requires LegalBody(key) && Strip(key) == field && LegalBody(other) && NoBracket(Quoted(other))
    requires WellFormed(value) && NoBracket(Print(value)) && WellFormed(next) && ReadableArray(next)
    ensures Seek(field, TwoMembers(key, value, other, next), false) == Opens(Core(next))
    ensures Elements(field, Print(TwoMembers(key, value, other, next))) == Texts(Core(next).items)
  {
    var doc := TwoMembers(key, value, other, next);
    ValueGoesByExactlyWhen(field, value);
    ArrayIsOpened(field, next);
    TwoMembersAreSought(field, key, value, other, next);
    TwoMembersAreWellFormed(key, value, other, next);
    RoundTrip(field, [], doc, []);
    NothingAround(Print(doc));
  }

  const BRACES: seq<Unit> := [Plain(OPEN_BRACE), Plain(CLOSE_BRACE)]

  lemma {:induction false} SpellBodyBoth(a: seq<Unit>, b: seq<Unit>)
    ensures SpellBody(a + b) == SpellBody(a) + SpellBody(b)
    decreases |b|
  {
    if b == [] {
      assert a + b == a;
    } else {
      var before, u := b[..|b| - 1], b[|b| - 1];
      assert (a + b)[..|a + b| - 1] == a + before && (a + b)[|a + b| - 1] == u;
      SpellBodyBoth(a, before);
      Regroup(SpellBody(a), SpellBody(before), SpellUnit(u));
    }
  }

  lemma SpellOne(c: byte)
    ensures SpellBody([Plain(c)]) == [c]
  {
    SpellBodySnoc([], Plain(c));
    assert [] + [Plain(c)] == [Plain(c)];
  }

  lemma BracesSpellAnObject()
    ensures SpellBody(BRACES) == Print(EMPTY_OBJECT)
  {
    SpellBodyBoth([Plain(OPEN_BRACE)], [Plain(CLOSE_BRACE)]);
    SpellOne(OPEN_BRACE);
    SpellOne(CLOSE_BRACE);
    assert [Plain(OPEN_BRACE)] + [Plain(CLOSE_BRACE)] == BRACES;
  }

  lemma BracesAreFired(field: Text, name: Text)
    ensures Run(field, Idle(name), SpellBody(BRACES)) == Outcome(Idle(name), [Print(EMPTY_OBJECT)])
  {
    BracesSpellAnObject();
    ObjectIsFiredAsPrinted(field, name, EMPTY_OBJECT);
  }

  lemma BracketedBody()
    ensures SpellBody([Plain(OPEN_BRACKET)] + BRACES + [Plain(CLOSE_BRACKET)]) ==
            [OPEN_BRACKET] + SpellBody(BRACES) + [CLOSE_BRACKET]
  {
    SpellBodyBoth([Plain(OPEN_BRACKET)], BRACES);
    SpellBodyBoth([Plain(OPEN_BRACKET)] + BRACES, [Plain(CLOSE_BRACKET)]);
    SpellOne(OPEN_BRACKET);
    SpellOne(CLOSE_BRACKET);
  }

  lemma PrintOneMember(key: seq<Unit>, value: Json)
    ensures Print(OneMember(key, value)) ==
            [OPEN_BRACE] + Name(Member([], key, [], value)) + [COLON] + Print(value) + [CLOSE_BRACE]
  {
    var m := Member([], key, [], value);
    assert [m][1..] == [];
    assert Members(true, [m]) == Name(m) + [COLON] + Print(value);
  }

  lemma PrintOneItem(item: Json)
    ensures Print(OneItem(item)) == [OPEN_BRACKET] + Print(item) + [CLOSE_BRACKET]
  {
    assert [item][1..] == [];
    assert Items(true, [item]) == Print(item);
  }

  /** Strings as printed, with their bytes written out. */
  lemma PrintedStrings(body: seq<Unit>, c: byte)
    ensures Print(Str(body)) == [0x22] + SpellBody(body) + [0x22]
    ensures SpellBody([Plain(c)]) == [c] && SpellBody([Escaped(c)]) == [0x5C, c]
  {
    SpellOne(c);
    SpellBodySnoc([], Escaped(c));
    assert [] + [Escaped(c)] == [Escaped(c)];
  }

  /** Arrays as printed. */
  lemma PrintedArrays(x: Json, y: Json)
    ensures Print(Arr([], [])) == [0x5B, 0x5D]
    ensures Print(OneItem(x)) == [0x5B] + Print(x) + [0x5D]
    ensures Print(Arr([], [x, y])) == [0x5B] + Print(x) + [0x2C] + Print(y) + [0x5D]
  {
    PrintOneItem(x);
    TwoItems(x, y);
    RegroupItems([OPEN_BRACKET], Print(x), [COMMA], Print(y), [CLOSE_BRACKET]);
  }

  lemma TwoItems(x: Json, y: Json)
    ensures Items(true, [x, y]) == Print(x) + ([COMMA] + Print(y))
  {
    assert [x, y][1..] == [y] && [y][1..] == [];
    assert Items(false, [y]) == [COMMA] + Print(y);
  }

  lemma RegroupItems(open: Text, x: Text, comma: Text, y: Text, close: Text)
    ensures open + ([] + (x + (comma + y))) + close == open + x + comma + y + close
  {
  }

  lemma MemberText(first: bool, key: seq<Unit>, x: Json)
    ensures (Comma(first) + Name(Member([], key, [], x))) + [COLON] ==
            (if first then [] else [0x2C]) + [0x22] + SpellBody(key) + [0x22, 0x3A]
  {
  }

  lemma RegroupMembers(open: Text, a: Text, x: Text, b: Text, y: Text, close: Text)
    ensures open + ([] + (a + x + (b + y + []))) + close == open + a + x + b + y + close
    ensures open + ([] + (a + x + [])) + close == open + a + x + close
  {
  }

  /** Objects as printed. */
  lemma PrintedObjects(key: seq<Unit>, x: Json, other: seq<Unit>, y: Json)
    ensures Print(EMPTY_OBJECT) == [0x7B, 0x7D]
    ensures Print(OneMember(key, x)) == [0x7B] + ([] + [0x22] + SpellBody(key) + [0x22, 0x3A]) + Print(x) + [0x7D]
    ensures Print(TwoMembers(key, x, other, y)) ==
            [0x7B] + ([] + [0x22] + SpellBody(key) + [0x22, 0x3A]) + Print(x)
            + ([0x2C] + [0x22] + SpellBody(other) + [0x22, 0x3A]) + Print(y) + [0x7D]
  {
    var m, n := Member([], key, [], x), Member([], other, [], y);
    var a, b := (Comma(true) + Name(m)) + [COLON], (Comma(false) + Name(n)) + [COLON];
    MemberText(true, key, x);
    MemberText(false, other, y);
    assert [m][1..] == [] && [m, n][1..] == [n] && [n][1..] == [];
    assert Members(true, [m]) == a + Print(x) + [];
    assert Members(false, [n]) == b + Print(y) + [];
    assert Members(true, [m, n]) == a + Print(x) + Members(false, [n]);
    RegroupMembers([OPEN_BRACE], a, Print(x), b, Print(y), [CLOSE_BRACE]);
  }

  lemma FirstMemberIsFound(field: Text, m: Member)
    requires WellFormedMember(m) && Strip(m.key) == field
    ensures Run(field, START, [OPEN_BRACE] + Name(m) + [COLON]) == Outcome(Waiting(field), [])
  {
    BytesKeepTheName(field, [], [OPEN_BRACE]);
    KeyIsFound(field, [], true, m);
    assert (Comma(true) + Name(m)) + [COLON] == Name(m) + [COLON];
    RunSplits(field, START, [OPEN_BRACE], Name(m) + [COLON]);
    Regroup([OPEN_BRACE], Name(m), [COLON]);
  }

  lemma FirstArrayIsOpened(field: Text, m: Member)
    requires WellFormedMember(m) && Strip(m.key) == field
    ensures Run(field, START, [OPEN_BRACE] + Name(m) + [COLON] + [OPEN_BRACKET]) == Outcome(Idle(field), [])
  {
    FirstMemberIsFound(field, m);
    RunOfOne(field, START, [OPEN_BRACE] + Name(m) + [COLON], OPEN_BRACKET);
  }

  lemma DoneAfterBracket(field: Text, rest: Text)
    ensures Run(field, Idle(field), [CLOSE_BRACKET] + rest).fired == []
  {
    RunByte(field, Idle(field), CLOSE_BRACKET);
    RunSplits(field, Idle(field), [CLOSE_BRACKET], rest);
    DoneIsAbsorbing(field, Step(field, Idle(field), CLOSE_BRACKET).state, rest);
  }

  lemma GapThenBracket(field: Text, gap: Text, rest: Text)
    requires Gap(gap)
    ensures Run(field, Idle(field), gap + ([CLOSE_BRACKET] + rest)).fired == []
  {
    DoneAfterBracket(field, rest);
    GapIsSkipped(field, Idle(field), gap);
    RunSplits(field, Idle(field), gap, [CLOSE_BRACKET] + rest);
  }

  /** Once the array is open, the bytes "{}" are fired wherever they stand. */
  lemma BracesInsideAreFired(field: Text, head: Text, gap: Text, rest: Text)
    requires Run(field, START, head) == Outcome(Idle(field), [])
    requires Gap(gap) && Run(field, Idle(field), rest).fired == []
    ensures Elements(field, head + (gap + SpellBody(BRACES) + rest)) == [Print(EMPTY_OBJECT)]
  {
    GapIsSkipped(field, Idle(field), gap);
    BracesAreFired(field, field);
    RunThree(field, Idle(field), gap, SpellBody(BRACES), rest);
    RunSplits(field, START, head, gap + SpellBody(BRACES) + rest);
  }

  lemma {:induction false} ItemsBoth(first: bool, a: seq<Json>, b: seq<Json>)
    ensures Items(first, a + b) == Items(first, a) + Items(first && a == [], b)
    decreases |a|
  {
    if a == [] {
      assert a + b == b;
    } else {
      assert (a + b)[0] == a[0] && (a + b)[1..] == a[1..] + b;
      ItemsBoth(false, a[1..], b);
      Regroup(ItemText(first, a[0]), Items(false, a[1..]), Items(false, b));
    }
  }

  /** Between elements a nested array is read as if it were the array itself, and its ']' ends the reading. */
  lemma {:induction false} NestedArrayIsRead(field: Text, v: Json, rest: Text)
    requires WellFormed(v) && ReadableArray(v)
    ensures Run(field, Idle(field), Print(v) + rest).fired == Texts(Core(v).items)
    decreases v
  {
    match v
    case Padded(pre, value, post) =>
      GapIsSkipped(field, Idle(field), pre);
      NestedArrayIsRead(field, value, post + rest);
      RunSplits(field, Idle(field), pre, Print(value) + (post + rest));
      RegroupFour(pre, Print(value), post, rest);
    case Arr(pad, items) =>
      var body := pad + Items(true, items) + ([CLOSE_BRACKET] + rest);
      RunByte(field, Idle(field), OPEN_BRACKET);
      ArrayBodyIsRead(field, pad, items, rest);
      RunSplits(field, Idle(field), [OPEN_BRACKET], body);
      RegroupArray([OPEN_BRACKET], pad, Items(true, items), [CLOSE_BRACKET], rest);
  }

  lemma ItemsUpToNested(field: Text, before: seq<Json>, nested: Json, rest: Text)
    requires ReadableItems(before) && WellFormed(nested) && ReadableArray(nested)
    ensures Run(field, Idle(field), Items(true, before) + (Comma(before == []) + (Print(nested) + rest))).fired ==
            Texts(before) + Texts(Core(nested).items)
  {
    ItemsAreFired(field, field, true, before);
    NestedArrayIsRead(field, nested, rest);
    ReadOn(field, Items(true, before), Texts(before), Comma(before == []), Print(nested) + rest);
  }

  /** What is fired after items and a gap. */
  lemma ReadOn(field: Text, x: Text, es: seq<Text>, gap: Text, y: Text)
    requires Run(field, Idle(field), x) == Outcome(Idle(field), es) && Gap(gap)
    ensures Run(field, Idle(field), x + (gap + y)).fired == es + Run(field, Idle(field), y).fired
  {
    GapIsSkipped(field, Idle(field), gap);
    RunSplits(field, Idle(field), gap, y);
    RunSplits(field, Idle(field), x, gap + y);
  }

  lemma PrintAroundNested(key: seq<Unit>, before: seq<Json>, nested: Json, after: seq<Json>)
    ensures var value := Arr([], before + ([nested] + after));
            Print(OneMember(key, value)) ==
            [OPEN_BRACE] + Name(Member([], key, [], value)) + [COLON] + [OPEN_BRACKET]
            + (Items(true, before) + (Comma(before == []) + (Print(nested)
               + (Items(false, after) + ([CLOSE_BRACKET] + [CLOSE_BRACE])))))
  {
    var items := before + ([nested] + after);
    PrintOneMember(key, Arr([], items));
    ItemsBoth(true, before, [nested] + after);
    assert ([nested] + after)[1..] == after;
    RegroupNested([OPEN_BRACE] + Name(Member([], key, [], Arr([], items))) + [COLON], [OPEN_BRACKET],
                  Items(true, before), Comma(before == []), Print(nested), Items(false, after),
                  [CLOSE_BRACKET], [CLOSE_BRACE]);
  }

  lemma RegroupNested(named: Text, open: Text, before: Text, comma: Text, x: Text, after: Text, close: Text, end: Text)
    ensures named + (open + ([] + (before + (comma + x + after))) + close) + end ==
            named + open + (before + (comma + (x + (after + (close + end)))))
  {
  }

  lemma NestedIsWellFormed(key: seq<Unit>, before: seq<Json>, nested: Json, after: seq<Json>)
    requires LegalBody(key) && ReadableItems(before) && WellFormed(nested) && WellFormed(Arr([], after))
    ensures WellFormedMember(Member([], key, [], Arr([], before + ([nested] + after))))
  {
  }

  /** A nested array ends the reading of the outer one: objects after it are never fired. */
  lemma NestedArrayEndsTheReading(field: Text, key: seq<Unit>, before: seq<Json>, nested: Json, after: seq<Json>)
    requires LegalBody(key) && Strip(key) == field && ReadableItems(before)
    requires WellFormed(nested) && ReadableArray(nested) && WellFormed(Arr([], after))
    ensures Elements(field, Print(OneMember(key, Arr([], before + ([nested] + after))))) ==
            Texts(before) + Texts(Core(nested).items)
  {
    var m := Member([], key, [], Arr([], before + ([nested] + after)));
    var head := [OPEN_BRACE] + Name(m) + [COLON] + [OPEN_BRACKET];
    var rest := Items(false, after) + ([CLOSE_BRACKET] + [CLOSE_BRACE]);
    var body := Items(true, before) + (Comma(before == []) + (Print(nested) + rest));
    NestedIsWellFormed(key, before, nested, after);
    FirstArrayIsOpened(field, m);
    ItemsUpToNested(field, before, nested, rest);
    RunSplits(field, START, head, body);
    PrintAroundNested(key, before, nested, after);
  }

  /** An array whose only item is the string "{}" holds no object, yet one is fired. */
  lemma StringItemIsTakenForObject(field: Text, key: seq<Unit>)
    requires LegalBody(key) && Strip(key) == field
    ensures Texts([Str(BRACES)]) == []
    ensures Elements(field, Print(OneMember(key, OneItem(Str(BRACES))))) == [Print(EMPTY_OBJECT)]
  {
    var m := Member([], key, [], OneItem(Str(BRACES)));
    var head := [OPEN_BRACE] + Name(m) + [COLON] + [OPEN_BRACKET];
    FirstArrayIsOpened(field, m);
    GapThenBracket(field, [QUOTE], [CLOSE_BRACE]);
    BracesInsideAreFired(field, head, [QUOTE], [QUOTE] + ([CLOSE_BRACKET] + [CLOSE_BRACE]));
    PrintStringItem(key);
    NoObjectInString();
  }

  lemma NoObjectInString()
    ensures Texts([Str(BRACES)]) == []
  {
    assert [Str(BRACES)][1..] == [];
  }

  lemma PrintStringItem(key: seq<Unit>)
    ensures Print(OneMember(key, OneItem(Str(BRACES)))) ==
            [OPEN_BRACE] + Name(Member([], key, [], OneItem(Str(BRACES)))) + [COLON] + [OPEN_BRACKET]
            + ([QUOTE] + SpellBody(BRACES) + ([QUOTE] + ([CLOSE_BRACKET] + [CLOSE_BRACE])))
  {
    var value := OneItem(Str(BRACES));
    PrintOneMember(key, value);
    PrintOneItem(Str(BRACES));
    RegroupStringItem([OPEN_BRACE] + Name(Member([], key, [], value)) + [COLON], [OPEN_BRACKET], [QUOTE],
                      SpellBody(BRACES), [CLOSE_BRACKET], [CLOSE_BRACE]);
  }

  lemma RegroupStringItem(named: Text, open: Text, quote: Text, x: Text, close: Text, end: Text)
    ensures named + (open + (quote + x + quote) + close) + end == named + open + (quote + x + (quote + (close + end)))
  {
  }

  /** A field whose value is the string "[{}]" has no array, yet an object is fired. */
  lemma StringValueIsTakenForArray(field: Text, key: seq<Unit>)
    requires LegalBody(key) && Strip(key) == field
    ensures var text := [Plain(OPEN_BRACKET)] + BRACES + [Plain(CLOSE_BRACKET)];
            Elements(field, Print(OneMember(key, Str(text)))) == [Print(EMPTY_OBJECT)]
  {
    var text := [Plain(OPEN_BRACKET)] + BRACES + [Plain(CLOSE_BRACKET)];
    var m := Member([], key, [], Str(text));
    var named, x := [OPEN_BRACE] + Name(m) + [COLON], SpellBody(BRACES);
    var head, rest := named + ([QUOTE] + [OPEN_BRACKET]), [CLOSE_BRACKET] + ([QUOTE] + [CLOSE_BRACE]);
    FirstMemberIsFound(field, m);
    BracketIsFound(field, field, [QUOTE]);
    RunSplits(field, START, named, [QUOTE] + [OPEN_BRACKET]);
    DoneAfterBracket(field, [QUOTE] + [CLOSE_BRACE]);
    BracesInsideAreFired(field, head, [], rest);
    PrintStringValue(key);
  }

  lemma PrintStringValue(key: seq<Unit>)
    ensures var text := [Plain(OPEN_BRACKET)] + BRACES + [Plain(CLOSE_BRACKET)];
            Print(OneMember(key, Str(text))) ==
            [OPEN_BRACE] + Name(Member([], key, [], Str(text))) + [COLON] + ([QUOTE] + [OPEN_BRACKET])
            + ([] + SpellBody(BRACES) + ([CLOSE_BRACKET] + ([QUOTE] + [CLOSE_BRACE])))
  {
    var text := [Plain(OPEN_BRACKET)] + BRACES + [Plain(CLOSE_BRACKET)];
    PrintOneMember(key, Str(text));
    BracketedBody();
    RegroupStringValue([OPEN_BRACE] + Name(Member([], key, [], Str(text))) + [COLON], [OPEN_BRACKET], [QUOTE],
                       SpellBody(BRACES), [CLOSE_BRACKET], [CLOSE_BRACE]);
  }

  lemma RegroupStringValue(named: Text, open: Text, quote: Text, x: Text, close: Text, end: Text)
    ensures named + (quote + (open + x + close) + quote) + end ==
            named + (quote + open) + ([] + x + (close + (quote + end)))
  {
  }
}
