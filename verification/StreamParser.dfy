/**
 The streaming extractor of one named JSON array, as a state machine over
 single bytes, and what every run over any byte string keeps.
 */
module StreamParser {
  import opened Basics
  import opened Bytes

  /** The names of the two arrays that a run extracts. */
  const ITEMS: Text := [0x69, 0x74, 0x65, 0x6D, 0x73]
  const CHAPTERS: Text := [0x63, 0x68, 0x61, 0x70, 0x74, 0x65, 0x72, 0x73]

  datatype Phase = SearchField | AwaitArray | InsideArray | InsideElement | Done

  datatype State = State(
    phase: Phase,
    depth: int,
    inString: bool,
    escape: bool,
    buf: Text,
    fieldBuf: Text)

  const START := State(SearchField, 0, false, false, [], [])

  /** A parser state and the elements fired on the way to it. */
  datatype Outcome = Outcome(state: State, fired: seq<Text>)

  function Step(field: Text, s: State, c: byte): Outcome {
    match s.phase
    case SearchField => Outcome(SearchStep(field, s, c), [])
    case AwaitArray => Outcome(if c == OPEN_BRACKET then s.(phase := InsideArray) else s, [])
    case InsideArray =>
      Outcome(
        if c == OPEN_BRACE then s.(buf := [OPEN_BRACE], depth := 1, phase := InsideElement)
        else if c == CLOSE_BRACKET then s.(phase := Done)
        else s,
        [])
    case InsideElement => ElementStep(s, c)
    case Done => Outcome(s, [])
  }

  function SearchStep(field: Text, s: State, c: byte): State {
    if s.inString then FieldCharStep(s, c)
    else if c == QUOTE then s.(inString := true, fieldBuf := [])
    else if c == COLON && s.fieldBuf == field then s.(phase := AwaitArray)
    else s
  }

  function FieldCharStep(s: State, c: byte): State {
    if s.escape then s.(fieldBuf := s.fieldBuf + [c], escape := false)
    else if c == BACKSLASH then s.(escape := true)
    else if c == QUOTE then s.(inString := false)
    else s.(fieldBuf := s.fieldBuf + [c])
  }

  function ElementStep(s: State, c: byte): Outcome {
    var s := s.(buf := s.buf + [c]);
    if s.inString then Outcome(StringStep(s, c), [])
    else if c == QUOTE then Outcome(s.(inString := true), [])
    else if c == OPEN_BRACE then Outcome(s.(depth := s.depth + 1), [])
    else if c == CLOSE_BRACE then
      if s.depth - 1 == 0 then Outcome(s.(depth := 0, buf := [], phase := InsideArray), [s.buf])
      else Outcome(s.(depth := s.depth - 1), [])
    else Outcome(s, [])
  }

  function StringStep(s: State, c: byte): State {
    if s.escape then s.(escape := false)
    else if c == BACKSLASH then s.(escape := true)
    else if c == QUOTE then s.(inString := false)
    else s
  }

  /** The bytes `input` fed one after the other. */
  function Run(field: Text, s: State, input: Text): Outcome
    decreases |input|
  {
    if input == [] then Outcome(s, [])
    else
      var head := Step(field, s, input[0]);
      var rest := Run(field, head.state, input[1..]);
      Outcome(rest.state, head.fired + rest.fired)
  }

  /** Everything a fresh parser fires over `input`. */
  function Elements(field: Text, input: Text): seq<Text> {
    Run(field, START, input).fired
  }

  // ----- chunking -----

  lemma {:induction false} RunSplits(field: Text, s: State, x: Text, y: Text)
    ensures Run(field, s, x + y) ==
            Outcome(Run(field, Run(field, s, x).state, y).state,
                    Run(field, s, x).fired + Run(field, Run(field, s, x).state, y).fired)
    decreases |x|
  {
    if x == [] {
      assert x + y == y;
    } else {
      assert (x + y)[0] == x[0] && (x + y)[1..] == x[1..] + y;
      var head := Step(field, s, x[0]);
      RunSplits(field, head.state, x[1..], y);
      var rest := Run(field, head.state, x[1..]);
      Regroup(head.fired, rest.fired, Run(field, rest.state, y).fired);
    }
  }

  lemma RunByte(field: Text, s: State, c: byte)
    ensures Run(field, s, [c]) == Step(field, s, c)
  {
    assert [c][1..] == [];
    assert Run(field, Step(field, s, c).state, []) == Outcome(Step(field, s, c).state, []);
  }

  lemma RunOfOne(field: Text, s: State, x: Text, c: byte)
    ensures Run(field, s, x + [c]).state == Step(field, Run(field, s, x).state, c).state
    ensures Run(field, s, x + [c]).fired == Run(field, s, x).fired + Step(field, Run(field, s, x).state, c).fired
  {
    RunSplits(field, s, x, [c]);
    RunByte(field, Run(field, s, x).state, c);
  }

  lemma RunNext(field: Text, s: State, b: Text, i: nat)
    requires i < |b|
    ensures var o := Run(field, s, b[..i]);
            Run(field, s, b[..i + 1]) ==
            Outcome(Step(field, o.state, b[i]).state, o.fired + Step(field, o.state, b[i]).fired)
  {
    RunOfOne(field, s, b[..i], b[i]);
    assert b[..i] + [b[i]] == b[..i + 1];
  }

  lemma RunThree(field: Text, s: State, x: Text, y: Text, z: Text)
    ensures var a := Run(field, s, x); var b := Run(field, a.state, y); var c := Run(field, b.state, z);
            Run(field, s, x + y + z) == Outcome(c.state, a.fired + b.fired + c.fired)
  {
    RunSplits(field, s, x, y);
    RunSplits(field, s, x + y, z);
  }

  lemma RunThreeSilent(field: Text, s: State, x: Text, a: State, y: Text, b: State, z: Text, c: State)
    requires Run(field, s, x) == Outcome(a, []) && Run(field, a, y) == Outcome(b, [])
    requires Run(field, b, z) == Outcome(c, [])
    ensures Run(field, s, x + y + z) == Outcome(c, [])
  {
    RunThree(field, s, x, y, z);
  }

  function Concat(chunks: seq<Text>): Text
    decreases |chunks|
  {
    if chunks == [] then [] else chunks[0] + Concat(chunks[1..])
  }

  /** Feeding chunk by chunk, as the provider delivers them. */
  function RunChunks(field: Text, s: State, chunks: seq<Text>): Outcome
    decreases |chunks|
  {
    if chunks == [] then Outcome(s, [])
    else
      var head := Run(field, s, chunks[0]);
      var rest := RunChunks(field, head.state, chunks[1..]);
      Outcome(rest.state, head.fired + rest.fired)
  }

  /** Chunk boundaries are invisible: only the concatenated bytes count. */
  lemma {:induction false} ChunkingIsInvisible(field: Text, s: State, chunks: seq<Text>)
    ensures RunChunks(field, s, chunks) == Run(field, s, Concat(chunks))
    decreases |chunks|
  {
    if chunks != [] {
      ChunkingIsInvisible(field, Run(field, s, chunks[0]).state, chunks[1..]);
      RunSplits(field, s, chunks[0], Concat(chunks[1..]));
    }
  }

  /** What has been fired is never revised by later bytes. */
  lemma ElementsArePrefixClosed(field: Text, x: Text, y: Text)
    ensures Elements(field, x) <= Elements(field, x + y)
  {
    RunSplits(field, START, x, y);
  }

  // ----- invariants over all byte strings -----

  ghost predicate Valid(s: State) {
    && (s.escape ==> s.inString)
    && (s.inString ==> s.phase == SearchField || s.phase == InsideElement)
    && s.depth >= 0
    && (s.depth >= 1 <==> s.phase == InsideElement)
    && (s.phase != InsideElement ==> s.buf == [])
    && (s.phase == InsideElement ==> s.buf != [] && s.buf[0] == OPEN_BRACE)
  }

  lemma StepKeepsValid(field: Text, s: State, c: byte)
    requires Valid(s)
    ensures Valid(Step(field, s, c).state)
  {
  }

  lemma {:induction false} RunKeepsValid(field: Text, s: State, input: Text)
    requires Valid(s)
    ensures Valid(Run(field, s, input).state)
    decreases |input|
  {
    if input != [] {
      StepKeepsValid(field, s, input[0]);
      RunKeepsValid(field, Step(field, s, input[0]).state, input[1..]);
    }
  }

  /** What the scanner's variables may be after any bytes. */
  lemma EveryRunIsValid(field: Text, input: Text)
    ensures var s := Run(field, START, input).state;
            && (s.escape ==> s.inString)
            && (s.inString ==> s.phase == SearchField || s.phase == InsideElement)
            && s.depth >= 0
            && (s.depth >= 1 <==> s.phase == InsideElement)
            && (s.phase != InsideElement ==> s.buf == [])
            && (s.phase == InsideElement ==> s.buf != [] && s.buf[0] == OPEN_BRACE)
  {
    RunKeepsValid(field, START, input);
  }

  lemma {:induction false} DoneIsAbsorbing(field: Text, s: State, input: Text)
    requires s.phase == Done
    ensures Run(field, s, input) == Outcome(s, [])
    decreases |input|
  {
    if input != [] {
      DoneIsAbsorbing(field, s, input[1..]);
    }
  }
}
