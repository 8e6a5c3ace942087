/**
 The output side of a generation run: the request context, the channel the
 client reads, the run's counters, and the callback that copies each element out
 of the parser's buffer. The context may end at any moment.
 */
module Emission {
  import opened Basics
  import opened Bytes
  import opened ProviderErrors
  import opened Delivery

  datatype AIChunk =
    | ItemChunk(payload: array<byte>)
    | ChapterChunk(payload: array<byte>)
    | DoneChunk
    | ErrorChunk(err: Failure)

  ghost function PayloadsOf(log: seq<AIChunk>): set<array<byte>>
    decreases |log|
  {
    if log == [] then {}
    else
      var c := log[|log| - 1];
      PayloadsOf(log[..|log| - 1]) + if c.ItemChunk? || c.ChapterChunk? then {c.payload} else {}
  }

  lemma {:induction false} PayloadsAreLogged(log: seq<AIChunk>)
    ensures forall p | p in PayloadsOf(log) ::
              exists i | 0 <= i < |log| :: (log[i] == ItemChunk(p) || log[i] == ChapterChunk(p))
    decreases |log|
  {
    if log != [] {
      var before := log[..|log| - 1];
      PayloadsAreLogged(before);
      forall p | p in PayloadsOf(log)
        ensures exists i | 0 <= i < |log| :: (log[i] == ItemChunk(p) || log[i] == ChapterChunk(p))
      {
        if p in PayloadsOf(before) {
          var i :| 0 <= i < |before| && (before[i] == ItemChunk(p) || before[i] == ChapterChunk(p));
          assert log[i] == before[i];
        }
      }
    }
  }

  /** A request context. Its end shows only in selects, so the moment it ends is the first select that can choose it. */
  class Context {
    const cause: Sentinel
    const endsAt: nat
    var selects: nat

    constructor (cause: Sentinel, endsAt: nat)
      ensures this.cause == cause && this.endsAt == endsAt && selects == 0
    {
      this.cause, this.endsAt, selects := cause, endsAt, 0;
    }

    function Err(): Failure {
      Failure("", {cause}, false)
    }

    /** A select against the context's end: the end can win only once it has come, the other event always. */
    method Select() returns (ended: bool)
      modifies this`selects
      ensures selects == old(selects) + 1
      ensures ended ==> endsAt <= old(selects)
    {
      ended := false;
      if endsAt <= selects {
        ended := *;
      }
      selects := selects + 1;
    }

    /** A select whose other event never comes. */
    method AwaitEnd()
      modifies this`selects
      ensures selects > old(selects) && selects > endsAt
    {
      selects := (if selects < endsAt then endsAt else selects) + 1;
    }
  }

  /** The run's output channel; `sent` mirrors `log` with every payload's bytes. */
  class Channel {
    var log: seq<AIChunk>
    var closed: bool
    ghost var sent: seq<Sent>

    constructor ()
      ensures Valid() && sent == [] && log == [] && !closed
    {
      log, closed, sent := [], false, [];
    }

    ghost function Payloads(): set<array<byte>>
      reads this
    {
      PayloadsOf(log)
    }

    ghost predicate Valid()
      reads this, Payloads()
    {
      && |sent| == |log|
      && forall i | 0 <= i < |log| ::
           match log[i]
           case ItemChunk(p) => p in Payloads() && sent[i] == ItemSent(p[..])
           case ChapterChunk(p) => p in Payloads() && sent[i] == ChapterSent(p[..])
           case DoneChunk => sent[i] == DoneSent
           case ErrorChunk(e) => sent[i] == ErrorSent(e)
    }

    method SendTerminal(c: AIChunk)
      requires Valid() && !closed && (c.DoneChunk? || c.ErrorChunk?)
      modifies this
      ensures Valid() && !closed && Payloads() == old(Payloads())
      ensures sent == old(sent) + [if c.DoneChunk? then DoneSent else ErrorSent(c.err)]
    {
      ghost var before := log;
      log := log + [c];
      sent := sent + [if c.DoneChunk? then DoneSent else ErrorSent(c.err)];
      assert log[..|log| - 1] == before;
    }

    /** A payload is sent as it is: the channel keeps the very array it was given. */
    method SendPayload(item: bool, p: array<byte>)
      requires Valid() && !closed
      modifies this
      ensures Valid() && !closed && Payloads() == old(Payloads()) + {p}
      ensures sent == old(sent) + [if item then ItemSent(p[..]) else ChapterSent(p[..])]
    {
      ghost var before := log;
      log := log + [if item then ItemChunk(p) else ChapterChunk(p)];
      sent := sent + [if item then ItemSent(p[..]) else ChapterSent(p[..])];
      assert log[..|log| - 1] == before;
    }

    method Close()
      requires Valid() && !closed
      modifies this`closed
      ensures Valid() && closed
    {
      closed := true;
    }
  }

  /** What one provider stream amounts to. */
  class StreamResult {
    var emitted: nat
    var dropped: nat
    var err: Option<Failure>

    constructor (err: Option<Failure>)
      ensures emitted == 0 && dropped == 0 && this.err == err
    {
      emitted, dropped := 0, 0;
      this.err := err;
    }
  }

  /** The callback a parser fires for each element. */
  class Emitter {
    const role: Role
    const ctx: Context
    const out: Channel
    const result: StreamResult
    const wellFormed: Text -> bool

    constructor (role: Role, ctx: Context, out: Channel, result: StreamResult, wellFormed: Text -> bool)
      ensures this.role == role && this.ctx == ctx && this.out == out && this.result == result
      ensures this.wellFormed == wellFormed
    {
      this.role, this.ctx, this.out, this.result, this.wellFormed := role, ctx, out, result, wellFormed;
    }

    /** Copies the element out of the parser's buffer before offering it; `got` is what was sent. */
    method OnElement(b: array<byte>, len: nat) returns (ghost got: seq<Sent>)
      requires len <= b.Length && out.Valid() && !out.closed
      modifies ctx`selects, out, result`emitted, result`dropped
      ensures out.Valid() && !out.closed
      ensures forall p | p in out.Payloads() :: p in old(out.Payloads()) || fresh(p)
      ensures ctx.selects == old(ctx.selects) + |OffersOf(role, wellFormed, b[..len])|
      ensures Kept(OffersOf(role, wellFormed, b[..len]), ctx.endsAt - old(ctx.selects), got)
      ensures out.sent == old(out.sent) + got
      ensures role.IgnoreRole? || !wellFormed(b[..len]) ==> got == []
      ensures got == [] || got == [if role.ItemRole? then ItemSent(b[..len]) else ChapterSent(b[..len])]
      ensures !role.IgnoreRole? && wellFormed(b[..len]) && old(ctx.selects) < ctx.endsAt ==> got != []
      ensures result.emitted == old(result.emitted) + if role.ItemRole? then |got| else 0
      ensures result.dropped == old(result.dropped) + if role.ItemRole? && !wellFormed(b[..len]) then 1 else 0
    {
      got := [];
      KeptNothing(ctx.endsAt - ctx.selects);
      if role.IgnoreRole? {
        return;
      }
      if !wellFormed(b[..len]) {
        if role.ItemRole? {
          result.dropped := result.dropped + 1;
        }
        return;
      }
      var cp := new byte[len](i requires 0 <= i < len reads b => b[i]);
      assert cp[..] == b[..len];
      KeptOne(Payload(role, b[..len]), ctx.endsAt - ctx.selects);
      var ended := ctx.Select();
      if !ended {
        out.SendPayload(role.ItemRole?, cp);
        got := [Payload(role, b[..len])];
        if role.ItemRole? {
          result.emitted := result.emitted + 1;
        }
      }
    }
  }
}
