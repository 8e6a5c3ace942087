/**
 The extractor as an object: a reused byte buffer that is grown and restarted in
 place, and a callback fired while the element still lies in that buffer.
 */
module ArrayParsers {
  import opened Basics
  import opened Bytes
  import opened StreamParser
  import opened Emission
  import opened Delivery

  class ArrayParser {
    const field: Text
    const onElement: Emitter
    var phase: Phase
    var depth: int
    var inString: bool
    var escape: bool
    var buf: array<byte>
    var len: nat
    var fieldBuf: Text

    constructor (field: Text, onElement: Emitter)
      ensures this.field == field && this.onElement == onElement
      ensures fresh(buf) && len <= buf.Length && View() == START
    {
      this.field, this.onElement := field, onElement;
      phase, depth, inString, escape := SearchField, 0, false, false;
      buf, len, fieldBuf := new byte[0], 0, [];
    }

    /** The state of the pure machine this object stands for. */
    ghost function View(): State
      reads this, buf
      requires len <= buf.Length
    {
      State(phase, depth, inString, escape, buf[..len], fieldBuf)
    }

    /** The buffer is not an array that has been sent. */
    ghost predicate Valid()
      reads this, onElement.out, onElement.out.Payloads()
    {
      len <= buf.Length && onElement.out.Valid() && !onElement.out.closed && buf !in onElement.out.Payloads()
    }

    /** One byte at the end of the buffer, in place while there is room. */
    method Append(c: byte)
      requires len <= buf.Length
      modifies this`buf, this`len, buf
      ensures len == old(len) + 1 <= buf.Length
      ensures buf[..len] == old(buf[..len]) + [c]
      ensures buf == old(buf) || fresh(buf)
    {
      if len == buf.Length {
        var a, n := buf, len;
        var grown := new byte[2 * len + 8](i requires 0 <= i < 2 * n + 8 reads a => if i < a.Length then a[i] else 0);
        assert grown[..len] == buf[..len];
        buf := grown;
      }
      buf[len] := c;
      len := len + 1;
    }

    method AppendFieldChar(c: byte)
      requires len <= buf.Length && phase == SearchField && inString
      modifies this`escape, this`inString, this`fieldBuf
      ensures View() == FieldCharStep(old(View()), c)
    {
      if escape {
        fieldBuf := fieldBuf + [c];
        escape := false;
      } else if c == BACKSLASH {
        escape := true;
      } else if c == QUOTE {
        inString := false;
      } else {
        fieldBuf := fieldBuf + [c];
      }
    }

    method SearchFieldByte(c: byte)
      requires len <= buf.Length && phase == SearchField
      modifies this`phase, this`escape, this`inString, this`fieldBuf
      ensures View() == SearchStep(field, old(View()), c)
    {
      if inString {
        AppendFieldChar(c);
      } else if c == QUOTE {
        inString := true;
        fieldBuf := [];
      } else if c == COLON && fieldBuf == field {
        phase := AwaitArray;
      }
    }

    method InsideArrayByte(c: byte)
      requires len <= buf.Length && phase == InsideArray
      modifies this, buf
      ensures len <= buf.Length && View() == Step(field, old(View()), c).state
      ensures buf == old(buf) || fresh(buf)
    {
      if c == OPEN_BRACE {
        len := 0;
        Append(OPEN_BRACE);
        depth := 1;
        phase := InsideElement;
      } else if c == CLOSE_BRACKET {
        phase := Done;
      }
    }

    method HandleInStringInside(c: byte)
      requires len <= buf.Length && inString
      modifies this`escape, this`inString
      ensures View() == StringStep(old(View()), c)
    {
      if escape {
        escape := false;
      } else if c == BACKSLASH {
        escape := true;
      } else if c == QUOTE {
        inString := false;
      }
    }

    /**
     What fired elements did to the output side: one select for each offer, the
     payloads `got` that were sent, and the counters' increments.
     */
    ghost predicate Effect(fired: seq<Text>, got: seq<Sent>, selects: int, selects': int,
                           before: seq<Sent>, after: seq<Sent>, emitted: int, dropped: int) {
      var offers := Offers(onElement.role, onElement.wellFormed, fired);
      var isItem := onElement.role.ItemRole?;
      && selects' == selects + |offers|
      && Kept(offers, onElement.ctx.endsAt - selects, got)
      && after == before + got
      && emitted == (if isItem then |got| else 0)
      && dropped == (if isItem then |fired| - |offers| else 0)
    }

    lemma NoEffect(selects: int, sent: seq<Sent>)
      ensures Effect([], [], selects, selects, sent, sent, 0, 0)
    {
      assert sent + [] == sent;
      KeptNothing(onElement.ctx.endsAt - selects);
    }

    lemma EffectBoth(f: seq<Text>, t: seq<Sent>, n0: int, n1: int, s0: seq<Sent>, s1: seq<Sent>, e: int, d: int,
                     g: seq<Text>, u: seq<Sent>, n2: int, s2: seq<Sent>, e': int, d': int)
      requires Effect(f, t, n0, n1, s0, s1, e, d) && Effect(g, u, n1, n2, s1, s2, e', d')
      ensures Effect(f + g, t + u, n0, n2, s0, s2, e + e', d + d')
    {
      OffersBoth(onElement.role, onElement.wellFormed, f, g);
      KeptOffers(onElement.role, onElement.wellFormed,
                 f, onElement.ctx.endsAt - n0, t, g, onElement.ctx.endsAt - n1, u);
      Regroup(s0, t, u);
    }

    /** The element is complete: it is handed to the callback where it lies, then the buffer is restarted. */
    method CloseElement() returns (ghost fired: seq<Text>, ghost got: seq<Sent>)
      requires Valid() && phase == InsideElement
      modifies this`len, this`phase,
               onElement.ctx`selects, onElement.out, onElement.result`emitted, onElement.result`dropped
      ensures Valid() && fired == [old(buf[..len])]
      ensures View() == old(View()).(buf := [], phase := InsideArray)
      ensures Effect(fired, got, old(onElement.ctx.selects), onElement.ctx.selects,
                     old(onElement.out.sent), onElement.out.sent,
                     onElement.result.emitted - old(onElement.result.emitted),
                     onElement.result.dropped - old(onElement.result.dropped))
      ensures forall p | p in onElement.out.Payloads() :: p in old(onElement.out.Payloads()) || fresh(p)
    {
      fired := [buf[..len]];
      OffersOfOne(onElement.role, onElement.wellFormed, buf[..len]);
      got := onElement.OnElement(buf, len);
      len := 0;
      phase := InsideArray;
    }

    method InsideElementByte(c: byte) returns (ghost fired: seq<Text>, ghost got: seq<Sent>)
      requires Valid() && phase == InsideElement
      modifies this, buf, onElement.ctx`selects, onElement.out, onElement.result`emitted, onElement.result`dropped
      ensures Valid() && Outcome(View(), fired) == ElementStep(old(View()), c)
      ensures Effect(fired, got, old(onElement.ctx.selects), onElement.ctx.selects,
                     old(onElement.out.sent), onElement.out.sent,
                     onElement.result.emitted - old(onElement.result.emitted),
                     onElement.result.dropped - old(onElement.result.dropped))
      ensures forall p | p in onElement.out.Payloads() :: p in old(onElement.out.Payloads()) || fresh(p)
      ensures buf == old(buf) || fresh(buf)
    {
      fired, got := [], [];
      NoEffect(onElement.ctx.selects, onElement.out.sent);
      Append(c);
      PayloadsAreLogged(onElement.out.log);
      if inString {
        HandleInStringInside(c);
      } else if c == QUOTE {
        inString := true;
      } else if c == OPEN_BRACE {
        depth := depth + 1;
      } else if c == CLOSE_BRACE {
        depth := depth - 1;
        if depth == 0 {
          fired, got := CloseElement();
        }
      }
    }

    method StepByte(c: byte) returns (ghost fired: seq<Text>, ghost got: seq<Sent>)
      requires Valid()
      modifies this, buf, onElement.ctx`selects, onElement.out, onElement.result`emitted, onElement.result`dropped
      ensures Valid() && Outcome(View(), fired) == Step(field, old(View()), c)
      ensures Effect(fired, got, old(onElement.ctx.selects), onElement.ctx.selects,
                     old(onElement.out.sent), onElement.out.sent,
                     onElement.result.emitted - old(onElement.result.emitted),
                     onElement.result.dropped - old(onElement.result.dropped))
      ensures forall p | p in onElement.out.Payloads() :: p in old(onElement.out.Payloads()) || fresh(p)
      ensures buf == old(buf) || fresh(buf)
    {
      fired, got := [], [];
      NoEffect(onElement.ctx.selects, onElement.out.sent);
      match phase
      case SearchField =>
        SearchFieldByte(c);
      case AwaitArray =>
        if c == OPEN_BRACKET {
          phase := InsideArray;
        }
      case InsideArray =>
        PayloadsAreLogged(onElement.out.log);
        InsideArrayByte(c);
      case InsideElement =>
        fired, got := InsideElementByte(c);
      case Done =>
    }

    /** The effect since selects `n0`, channel `s0` and counters `e0`, `d0`. */
    ghost predicate SoFar(fired: seq<Text>, got: seq<Sent>, n0: int, s0: seq<Sent>, e0: int, d0: int)
      reads onElement.ctx`selects, onElement.out, onElement.result`emitted, onElement.result`dropped
    {
      Effect(fired, got, n0, onElement.ctx.selects, s0, onElement.out.sent,
             onElement.result.emitted - e0, onElement.result.dropped - d0)
    }

    /** One more byte after those that did `fired` and `got`. */
    method StepMore(c: byte, ghost fired: seq<Text>, ghost got: seq<Sent>,
                    ghost n0: int, ghost s0: seq<Sent>, ghost e0: int, ghost d0: int)
        returns (ghost fired': seq<Text>, ghost got': seq<Sent>)
      requires Valid() && SoFar(fired, got, n0, s0, e0, d0)
      modifies this, buf, onElement.ctx`selects, onElement.out, onElement.result`emitted, onElement.result`dropped
      ensures Valid() && SoFar(fired', got', n0, s0, e0, d0)
      ensures View() == Step(field, old(View()), c).state && fired' == fired + Step(field, old(View()), c).fired
      ensures forall p | p in onElement.out.Payloads() :: p in old(onElement.out.Payloads()) || fresh(p)
      ensures buf == old(buf) || fresh(buf)
    {
      ghost var selects, sent, emitted, dropped :=
        onElement.ctx.selects, onElement.out.sent, onElement.result.emitted, onElement.result.dropped;
      ghost var more, gotNow := StepByte(c);
      EffectBoth(fired, got, n0, selects, s0, sent, emitted - e0, dropped - d0,
                 more, gotNow, onElement.ctx.selects, onElement.out.sent,
                 onElement.result.emitted - emitted, onElement.result.dropped - dropped);
      fired', got' := fired + more, got + gotNow;
    }

    /** Bytes pushed one by one; `fired` and `got` are what was fired and what was sent. */
    method Feed(b: Text) returns (ghost fired: seq<Text>, ghost got: seq<Sent>)
      requires Valid()
      modifies this, buf, onElement.ctx`selects, onElement.out, onElement.result`emitted, onElement.result`dropped
      ensures Valid() && Outcome(View(), fired) == Run(field, old(View()), b)
      ensures Effect(fired, got, old(onElement.ctx.selects), onElement.ctx.selects,
                     old(onElement.out.sent), onElement.out.sent,
                     onElement.result.emitted - old(onElement.result.emitted),
                     onElement.result.dropped - old(onElement.result.dropped))
      ensures forall p | p in onElement.out.Payloads() :: p in old(onElement.out.Payloads()) || fresh(p)
      ensures buf == old(buf) || fresh(buf)
    {
      ghost var start := View();
      ghost var n0, s0, e0, d0 :=
        onElement.ctx.selects, onElement.out.sent, onElement.result.emitted, onElement.result.dropped;
      fired, got := [], [];
      NoEffect(n0, s0);
      for i := 0 to |b|
        invariant Valid() && Outcome(View(), fired) == Run(field, start, b[..i])
        invariant SoFar(fired, got, n0, s0, e0, d0)
        invariant forall p | p in onElement.out.Payloads() :: p in old(onElement.out.Payloads()) || fresh(p)
        invariant buf == old(buf) || fresh(buf)
      {
        fired, got := StepMore(b[i], fired, got, n0, s0, e0, d0);
        RunNext(field, start, b, i);
      }
      assert b[..|b|] == b;
    }
  }
}
