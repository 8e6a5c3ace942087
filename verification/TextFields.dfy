/**
 Splitting text at white space and joining it again. Which characters are white
 space, letters or digits, and how they are lower-cased, is left to the caller,
 within the few laws that Unicode's classes obey.
 */
module TextFields {

  datatype CharClass = CharClass(
    isSpace: char -> bool,
    isAlnum: char -> bool,
    lower: char -> char,
    width: char -> nat)

  ghost predicate Lawful(cc: CharClass) {
    && cc.isSpace(' ')
    && (forall c :: cc.isSpace(c) ==> !cc.isAlnum(c))
    && (forall c :: cc.isSpace(cc.lower(c)) <==> cc.isSpace(c))
    && (forall c :: cc.lower(cc.lower(c)) == cc.lower(c))
    && cc.lower(' ') == ' '
    && (forall c :: cc.width(c) >= 1)
    && !cc.isAlnum(':') && !cc.isAlnum('*') && !cc.isAlnum('&')
    && !cc.isSpace(':') && !cc.isSpace('*') && !cc.isSpace('&')
  }

  /** The laws hold of the plain ASCII classes. */
  lemma AsciiIsLawful() returns (cc: CharClass)
    ensures Lawful(cc)
    ensures forall c :: cc.isSpace(c) <==> c == ' ' || c == '\t' || c == '\n' || c == '\r'
    ensures forall c :: cc.isAlnum(c) <==> '0' <= c <= '9' || 'A' <= c <= 'Z' || 'a' <= c <= 'z'
    ensures cc.lower('A') == 'a' && cc.lower('Z') == 'z'
  {
    cc := CharClass(
      c => c == ' ' || c == '\t' || c == '\n' || c == '\r',
      c => '0' <= c <= '9' || 'A' <= c <= 'Z' || 'a' <= c <= 'z',
      c => if 'A' <= c <= 'Z' then c - 'A' + 'a' else c,
      _ => 1);
  }

  function Flush(word: string): seq<string> {
    if word == "" then [] else [word]
  }

  /** The words of `s`, the first of which begins with `word`. */
  function FieldsFrom(cc: CharClass, word: string, s: string): seq<string>
    decreases |s|
  {
    if s == "" then Flush(word)
    else if cc.isSpace(s[0]) then Flush(word) + FieldsFrom(cc, "", s[1..])
    else FieldsFrom(cc, word + [s[0]], s[1..])
  }

  /** The maximal runs of non-space characters. */
  function Fields(cc: CharClass, s: string): seq<string> {
    FieldsFrom(cc, "", s)
  }

  function Join(parts: seq<string>, sep: string): string
    decreases |parts|
  {
    if parts == [] then ""
    else if |parts| == 1 then parts[0]
    else parts[0] + sep + Join(parts[1..], sep)
  }

  predicate IsWord(cc: CharClass, w: string) {
    w != "" && forall i | 0 <= i < |w| :: !cc.isSpace(w[i])
  }

  predicate AllWords(cc: CharClass, ws: seq<string>) {
    forall i | 0 <= i < |ws| :: IsWord(cc, ws[i])
  }

  lemma {:induction false} FieldsAreWords(cc: CharClass, word: string, s: string)
    requires forall i | 0 <= i < |word| :: !cc.isSpace(word[i])
    ensures AllWords(cc, FieldsFrom(cc, word, s))
    decreases |s|
  {
    if s != "" {
      if cc.isSpace(s[0]) {
        FieldsAreWords(cc, "", s[1..]);
      } else {
        FieldsAreWords(cc, word + [s[0]], s[1..]);
      }
    }
  }

  /** A space splits. */
  lemma {:induction false} FieldsAcrossSpace(cc: CharClass, word: string, a: string, c: char, b: string)
    requires cc.isSpace(c)
    ensures FieldsFrom(cc, word, a + [c] + b) == FieldsFrom(cc, word, a) + Fields(cc, b)
    decreases |a|
  {
    var s := a + [c] + b;
    if a == "" {
      assert s[0] == c && s[1..] == b;
    } else {
      assert s[0] == a[0] && s[1..] == a[1..] + [c] + b;
      if cc.isSpace(a[0]) {
        FieldsAcrossSpace(cc, "", a[1..], c, b);
      } else {
        FieldsAcrossSpace(cc, word + [a[0]], a[1..], c, b);
      }
    }
  }

  /** Characters that are not spaces do not. */
  lemma {:induction false} FieldsOfWord(cc: CharClass, word: string, w: string)
    requires forall i | 0 <= i < |w| :: !cc.isSpace(w[i])
    ensures FieldsFrom(cc, word, w) == Flush(word + w)
    decreases |w|
  {
    if w == "" {
      assert word + w == word;
    } else {
      FieldsOfWord(cc, word + [w[0]], w[1..]);
      assert word + [w[0]] + w[1..] == word + w;
    }
  }

  /** Joining words with a space and splitting again gives the words back. */
  lemma {:induction false} FieldsOfJoin(cc: CharClass, ws: seq<string>)
    requires Lawful(cc) && AllWords(cc, ws)
    ensures Fields(cc, Join(ws, " ")) == ws
    decreases |ws|
  {
    if ws != [] {
      FieldsOfWord(cc, "", ws[0]);
      assert "" + ws[0] == ws[0];
      if |ws| > 1 {
        FieldsOfJoin(cc, ws[1..]);
        FieldsAcrossSpace(cc, "", ws[0], ' ', Join(ws[1..], " "));
      }
    }
  }

  /**
   Splitting is determined by two facts: any white space anywhere splits into what
   is before and what is after it, and a text without any is one word, or none.
   */
  lemma SplitExactlyAtSpaces(cc: CharClass, a: string, c: char, b: string, w: string)
    ensures cc.isSpace(c) ==> Fields(cc, a + [c] + b) == Fields(cc, a) + Fields(cc, b)
    ensures (forall i | 0 <= i < |w| :: !cc.isSpace(w[i])) ==> Fields(cc, w) == if w == "" then [] else [w]
  {
    if cc.isSpace(c) {
      FieldsAcrossSpace(cc, "", a, c, b);
    }
    if forall i | 0 <= i < |w| :: !cc.isSpace(w[i]) {
      FieldsOfWord(cc, "", w);
      assert "" + w == w;
    }
  }

  // ----- trimming -----

  function TrimLeft(cc: CharClass, s: string): string
    decreases |s|
  {
    if s != "" && cc.isSpace(s[0]) then TrimLeft(cc, s[1..]) else s
  }

  function TrimRight(cc: CharClass, s: string): string
    decreases |s|
  {
    if s != "" && cc.isSpace(s[|s| - 1]) then TrimRight(cc, s[..|s| - 1]) else s
  }

  function TrimSpace(cc: CharClass, s: string): string {
    TrimRight(cc, TrimLeft(cc, s))
  }

  lemma {:induction false} TrimKeepsFields(cc: CharClass, s: string)
    ensures Fields(cc, TrimLeft(cc, s)) == Fields(cc, s)
    ensures Fields(cc, TrimRight(cc, s)) == Fields(cc, s)
    decreases |s|
  {
    if s != "" && cc.isSpace(s[0]) {
      TrimKeepsFields(cc, s[1..]);
    }
    if s != "" && cc.isSpace(s[|s| - 1]) {
      var before, c := s[..|s| - 1], s[|s| - 1];
      TrimKeepsFields(cc, before);
      FieldsAcrossSpace(cc, "", before, c, "");
      assert before + [c] + "" == s;
    }
  }
}
