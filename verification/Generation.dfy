/**
 A generation run from provider stream to closed channel: two extractors in
 lockstep over the same chunks, one transparent retry, the job row and the quota.
 The provider's replies and the moment at which the context ends are arbitrary.
 */
module Generation {
  import opened Basics
  import opened Bytes
  import opened StreamParser
  import opened Emission
  import opened Delivery
  import opened ArrayParsers
  import opened ProviderErrors
  import opened Quota

  datatype ProviderChunk = ProviderChunk(text: Text, last: bool)

  /** What one provider call yields: a failure to start, or chunks after which the stream closes or hangs. */
  datatype Reply = Refused(err: Failure) | Streaming(chunks: seq<ProviderChunk>, closes: bool)

  class Provider {
    const replies: nat -> Reply
    var calls: nat

    constructor (replies: nat -> Reply)
      ensures this.replies == replies && calls == 0
    {
      this.replies, calls := replies, 0;
    }

    method Stream() returns (reply: Reply)
      modifies this`calls
      ensures calls == old(calls) + 1 && reply == replies(old(calls))
    {
      reply := replies(calls);
      calls := calls + 1;
    }
  }

  datatype Request = Request(uid: nat, feature: Feature, hasImages: bool, dropChapters: bool, wellFormed: Text -> bool)

  class JobRow {
    var status: Status
    var itemsEmitted: nat
    var itemsDropped: nat
    var errorKind: string

    constructor ()
      ensures status == Running && itemsEmitted == 0 && itemsDropped == 0 && errorKind == ""
    {
      status, itemsEmitted, itemsDropped, errorKind := Running, 0, 0, "";
    }
  }

  /** The bytes of the first `k` chunks. */
  function Fed(chunks: seq<ProviderChunk>, k: nat): Text
    requires k <= |chunks|
  {
    if k == 0 then [] else Fed(chunks, k - 1) + chunks[k - 1].text
  }

  /** How many chunks a run reads when nothing cuts it short: up to the one marked last. */
  function Consumed(chunks: seq<ProviderChunk>): (k: nat)
    ensures k <= |chunks|
    decreases |chunks|
  {
    if chunks == [] then 0 else if chunks[0].last then 1 else 1 + Consumed(chunks[1..])
  }

  predicate NoLast(chunks: seq<ProviderChunk>, k: nat) {
    forall i | 0 <= i < k && i < |chunks| :: !chunks[i].last
  }

  /** Reading stops after the first chunk marked last, and goes on to the end if there is none. */
  lemma {:induction false} ConsumedExactly(chunks: seq<ProviderChunk>)
    ensures var k := Consumed(chunks);
            && (forall i | 0 <= i < k - 1 :: !chunks[i].last)
            && (k < |chunks| ==> k > 0 && chunks[k - 1].last)
    decreases |chunks|
  {
    if chunks != [] && !chunks[0].last {
      ConsumedExactly(chunks[1..]);
    }
  }

  lemma {:induction false} ConsumedUpToLast(chunks: seq<ProviderChunk>, k: nat)
    requires k <= |chunks| && NoLast(chunks, k)
    ensures k <= Consumed(chunks)
    ensures k < |chunks| && chunks[k].last ==> Consumed(chunks) == k + 1
    ensures k == |chunks| ==> Consumed(chunks) == k
    decreases k
  {
    if k > 0 {
      ConsumedUpToLast(chunks[1..], k - 1);
    }
  }

  function ChapterRoleOf(req: Request): Role {
    if req.dropChapters then IgnoreRole else ChapterRole
  }

  /** What the next bytes `b` add to what is fired after `fed`. */
  function NewElements(field: Text, fed: Text, b: Text): seq<Text> {
    Run(field, Run(field, START, fed).state, b).fired
  }

  /** The offers that one chunk leads to: its items, then its chapters. */
  function OffersIn(req: Request, fed: Text, b: Text): seq<Poll> {
    Offers(ItemRole, req.wellFormed, NewElements(ITEMS, fed, b))
    + Offers(ChapterRoleOf(req), req.wellFormed, NewElements(CHAPTERS, fed, b))
  }

  /** The selects for chunk `i`: the one that receives it, then its offers. */
  function ChunkPolls(req: Request, chunks: seq<ProviderChunk>, i: nat): seq<Poll>
    requires i < |chunks|
  {
    [Receive] + OffersIn(req, Fed(chunks, i), chunks[i].text)
  }

  function AllPolls(req: Request, chunks: seq<ProviderChunk>): seq<seq<Poll>> {
    seq(|chunks|, i requires 0 <= i < |chunks| => ChunkPolls(req, chunks, i))
  }

  function Joined(parts: seq<seq<Poll>>, k: nat): seq<Poll>
    requires k <= |parts|
  {
    if k == 0 then [] else Joined(parts, k - 1) + parts[k - 1]
  }

  lemma {:induction false} JoinedGrows(parts: seq<seq<Poll>>, k: nat, n: nat)
    requires k <= n <= |parts|
    ensures |Joined(parts, k)| <= |Joined(parts, n)|
    decreases n
  {
    if k < n {
      JoinedGrows(parts, k, n - 1);
    }
  }

  ghost predicate IsPart(req: Request, chunks: seq<ProviderChunk>, parts: seq<seq<Poll>>, i: nat)
    requires i < |chunks| && i < |parts|
  {
    parts[i] == ChunkPolls(req, chunks, i)
  }

  /** `parts` are the selects chunk by chunk. */
  ghost predicate AreParts(req: Request, chunks: seq<ProviderChunk>, parts: seq<seq<Poll>>) {
    |parts| == |chunks| && forall i | 0 <= i < |chunks| :: IsPart(req, chunks, parts, i)
  }

  lemma AllPollsAreParts(req: Request, chunks: seq<ProviderChunk>)
    ensures AreParts(req, chunks, AllPolls(req, chunks))
  {
  }

  lemma NextPart(req: Request, chunks: seq<ProviderChunk>, parts: seq<seq<Poll>>, k: nat)
    requires AreParts(req, chunks, parts) && k < |chunks|
    ensures Joined(parts, k + 1) == Joined(parts, k) + ([Receive] + OffersIn(req, Fed(chunks, k), chunks[k].text))
    ensures Fed(chunks, k + 1) == Fed(chunks, k) + chunks[k].text
  {
    assert IsPart(req, chunks, parts, k);
  }

  /** Every select of a run that reads the first `k` chunks. */
  function Polls(req: Request, chunks: seq<ProviderChunk>, k: nat): seq<Poll>
    requires k <= |chunks|
  {
    Joined(AllPolls(req, chunks), k)
  }

  function MalformedItems(req: Request, fed: Text): int {
    |Elements(ITEMS, fed)| - |WellFormedOnly(req.wellFormed, Elements(ITEMS, fed))|
  }

  /** The channel and the counters after the bytes `fed` and the selects `polls`; `live` selects come before the end. */
  ghost predicate Relayed(req: Request, fed: Text, polls: seq<Poll>, live: int,
                          sent: seq<Sent>, emitted: int, dropped: int) {
    && PayloadsOnly(sent) && Kept(polls, live, sent)
    && emitted == |ItemsOf(sent)| && dropped == MalformedItems(req, fed)
  }

  lemma NothingRelayed(req: Request, live: int)
    ensures Relayed(req, [], [], live, [], 0, 0)
  {
    KeptNothing(live);
  }

  lemma ReceiveIsKept(polls: seq<Poll>, live: int, got: seq<Sent>)
    requires Kept(polls, live - 1, got)
    ensures Kept([Receive] + polls, live, got)
  {
    assert Kept([Receive], live, []) by {
      assert Picks([Receive], live, [true]);
      assert [Receive][..0] == [] && [true][..0] == [];
    }
    KeptBoth([Receive], live, [], polls, live - 1, got);
    assert [] + got == got;
  }

  /** What is sent of one chunk's offers, after the select that received it. */
  lemma KeptChunk(polls: seq<Poll>, live: int, sent: seq<Sent>, a: seq<Poll>, l: int, t: seq<Sent>,
                  b: seq<Poll>, m: int, u: seq<Sent>)
    requires Kept(polls, live, sent) && Kept(a, l, t) && Kept(b, m, u)
    requires l == live - |polls| - 1 && m == l - |a|
    ensures Kept(polls + ([Receive] + (a + b)), live, sent + (t + u))
  {
    KeptBoth(a, l, t, b, m, u);
    ReceiveIsKept(a + b, l + 1, t + u);
    KeptBoth(polls, live, sent, [Receive] + (a + b), l + 1, t + u);
  }

  lemma SentChunk(role: Role, wellFormed: Text -> bool, f: seq<Text>, t: seq<Sent>, l: int,
                  g: seq<Text>, u: seq<Sent>, m: int, sent: seq<Sent>)
    requires PayloadsOnly(sent) && role != ItemRole
    requires Kept(Offers(ItemRole, wellFormed, f), l, t) && Kept(Offers(role, wellFormed, g), m, u)
    ensures PayloadsOnly(sent + (t + u)) && |ItemsOf(sent + (t + u))| == |ItemsOf(sent)| + |t|
  {
    KeptOfRole(ItemRole, wellFormed, f, l, t);
    KeptOfRole(role, wellFormed, g, m, u);
    CountedItems(ItemRole, t);
    CountedItems(role, u);
    ChannelBoth(t, u);
    ChannelBoth(sent, t + u);
  }

  lemma MalformedChunk(req: Request, fed: Text, b: Text)
    ensures MalformedItems(req, fed + b) == MalformedItems(req, fed) + |NewElements(ITEMS, fed, b)|
                                            - |Offers(ItemRole, req.wellFormed, NewElements(ITEMS, fed, b))|
  {
    RunSplits(ITEMS, START, fed, b);
    WellFormedOfBoth(req.wellFormed, Elements(ITEMS, fed), NewElements(ITEMS, fed, b));
    OffersOnChannel(ItemRole, req.wellFormed, NewElements(ITEMS, fed, b));
  }

  /** Both callbacks' effects on one chunk. */
  lemma RelayChunk(req: Request, fed: Text, b: Text, polls: seq<Poll>, live: int, sent: seq<Sent>, e: int, d: int,
                   f: seq<Text>, l: int, t: seq<Sent>, g: seq<Text>, m: int, u: seq<Sent>)
    requires Relayed(req, fed, polls, live, sent, e, d)
    requires f == NewElements(ITEMS, fed, b) && g == NewElements(CHAPTERS, fed, b)
    requires Kept(Offers(ItemRole, req.wellFormed, f), l, t)
    requires Kept(Offers(ChapterRoleOf(req), req.wellFormed, g), m, u)
    requires l == live - |polls| - 1 && m == l - |Offers(ItemRole, req.wellFormed, f)|
    ensures Relayed(req, fed + b, polls + ([Receive] + OffersIn(req, fed, b)), live, sent + (t + u), e + |t|,
                    d + |f| - |Offers(ItemRole, req.wellFormed, f)|)
  {
    var role := ChapterRoleOf(req);
    KeptChunk(polls, live, sent, Offers(ItemRole, req.wellFormed, f), l, t, Offers(role, req.wellFormed, g), m, u);
    SentChunk(role, req.wellFormed, f, t, l, g, u, m, sent);
    MalformedChunk(req, fed, b);
  }

  /** How the two extractors are set up: on the same context, channel and counters, and on nothing else. */
  ghost predicate Wired(req: Request, items: ArrayParser, chapters: ArrayParser) {
    && items != chapters
    && items.field == ITEMS && chapters.field == CHAPTERS
    && items.onElement.role == ItemRole && chapters.onElement.role == ChapterRoleOf(req)
    && items.onElement.wellFormed == chapters.onElement.wellFormed == req.wellFormed
    && items.onElement.ctx == chapters.onElement.ctx
    && items.onElement.out == chapters.onElement.out
    && items.onElement.result == chapters.onElement.result
  }

  /** The two extractors are where the bytes fed so far put each of them alone, each with its own buffer. */
  ghost predicate Aligned(items: ArrayParser, chapters: ArrayParser, fed: Text)
    reads items, chapters, items.buf, chapters.buf, items.onElement.out, items.onElement.out.Payloads(),
          chapters.onElement.out, chapters.onElement.out.Payloads()
  {
    && items.Valid() && chapters.Valid() && items.buf != chapters.buf
    && items.View() == Run(ITEMS, START, fed).state
    && chapters.View() == Run(CHAPTERS, START, fed).state
  }

  /**
   A stream in progress, begun when `start` selects had been made: what the
   extractors, the channel and the counters are after `fed` and `polls`.
   */
  ghost predicate Streamed(req: Request, items: ArrayParser, chapters: ArrayParser,
                           fed: Text, polls: seq<Poll>, start: nat)
    reads items, chapters, items.buf, chapters.buf,
          items.onElement.result`emitted, items.onElement.result`dropped,
          items.onElement.out, items.onElement.out.Payloads(),
          chapters.onElement.out, chapters.onElement.out.Payloads()
  {
    && Aligned(items, chapters, fed)
    && Relayed(req, fed, polls, items.onElement.ctx.endsAt - start, items.onElement.out.sent,
               items.onElement.result.emitted, items.onElement.result.dropped)
  }

  /** One received chunk into both extractors. */
  method FeedBoth(req: Request, items: ArrayParser, chapters: ArrayParser, b: Text,
                  ghost fed: Text, ghost polls: seq<Poll>, ghost start: nat)
      returns (ghost t: seq<Sent>, ghost u: seq<Sent>)
    requires Wired(req, items, chapters) && Streamed(req, items, chapters, fed, polls, start)
    requires items.onElement.ctx.selects == start + |polls| + 1
    modifies items, items.buf, chapters, chapters.buf,
             items.onElement.ctx`selects, items.onElement.out,
             items.onElement.result`emitted, items.onElement.result`dropped
    ensures Streamed(req, items, chapters, fed + b, polls + ([Receive] + OffersIn(req, fed, b)), start)
    ensures items.onElement.ctx.selects == start + |polls| + 1 + |OffersIn(req, fed, b)|
    ensures items.onElement.out.sent == old(items.onElement.out.sent) + t + u
    ensures (forall i | 0 <= i < |t| :: t[i].ItemSent?) && forall i | 0 <= i < |u| :: u[i].ChapterSent?
    ensures items.buf == old(items.buf) || fresh(items.buf)
    ensures chapters.buf == old(chapters.buf) || fresh(chapters.buf)
  {
    ghost var sent, e, d := items.onElement.out.sent, items.onElement.result.emitted, items.onElement.result.dropped;
    ghost var live, l := items.onElement.ctx.endsAt - start, items.onElement.ctx.endsAt - items.onElement.ctx.selects;
    ghost var f, g;
    f, t := items.Feed(b);
    ghost var m := items.onElement.ctx.endsAt - items.onElement.ctx.selects;
    g, u := chapters.Feed(b);
    RunSplits(ITEMS, START, fed, b);
    RunSplits(CHAPTERS, START, fed, b);
    RelayChunk(req, fed, b, polls, live, sent, e, d, f, l, t, g, m, u);
    KeptOfRole(ItemRole, req.wellFormed, f, l, t);
    KeptOfRole(ChapterRoleOf(req), req.wellFormed, g, m, u);
    Regroup(sent, t, u);
  }

  /** Either the context ends, or the next chunk goes into both extractors. */
  method FeedNext(req: Request, items: ArrayParser, chapters: ArrayParser, b: Text,
                  ghost fed: Text, ghost polls: seq<Poll>, ghost start: nat)
      returns (ended: bool)
    requires Wired(req, items, chapters) && Streamed(req, items, chapters, fed, polls, start)
    requires items.onElement.ctx.selects == start + |polls|
    modifies items, items.buf, chapters, chapters.buf,
             items.onElement.ctx`selects, items.onElement.out,
             items.onElement.result`emitted, items.onElement.result`dropped
    ensures ended ==> Streamed(req, items, chapters, fed, polls, start)
                      && items.onElement.ctx.endsAt - start <= |polls|
    ensures !ended ==>
              && Streamed(req, items, chapters, fed + b, polls + ([Receive] + OffersIn(req, fed, b)), start)
              && items.onElement.ctx.selects == start + |polls + ([Receive] + OffersIn(req, fed, b))|
    ensures items.buf == old(items.buf) || fresh(items.buf)
    ensures chapters.buf == old(chapters.buf) || fresh(chapters.buf)
  {
    ended := items.onElement.ctx.Select();
    if !ended {
      ghost var t, u := FeedBoth(req, items, chapters, b, fed, polls, start);
    }
  }

  datatype Drained = AllRead | ContextEnded | LastSeen

  /** One turn of the receive loop, for chunk `k`. */
  method FeedPart(req: Request, items: ArrayParser, chapters: ArrayParser, chunks: seq<ProviderChunk>, k: nat,
                  ghost parts: seq<seq<Poll>>, ghost start: nat)
      returns (how: Drained, k': nat)
    requires AreParts(req, chunks, parts) && k < |chunks|
    requires Wired(req, items, chapters) && Streamed(req, items, chapters, Fed(chunks, k), Joined(parts, k), start)
    requires items.onElement.ctx.selects == start + |Joined(parts, k)|
    modifies items, items.buf, chapters, chapters.buf,
             items.onElement.ctx`selects, items.onElement.out,
             items.onElement.result`emitted, items.onElement.result`dropped
    ensures k' == if how == ContextEnded then k else k + 1
    ensures Streamed(req, items, chapters, Fed(chunks, k'), Joined(parts, k'), start)
    ensures how == LastSeen <==> k' == k + 1 && chunks[k].last
    ensures if how == ContextEnded then items.onElement.ctx.endsAt - start <= |Joined(parts, k)|
            else items.onElement.ctx.selects == start + |Joined(parts, k')|
    ensures items.buf == old(items.buf) || fresh(items.buf)
    ensures chapters.buf == old(chapters.buf) || fresh(chapters.buf)
  {
    NextPart(req, chunks, parts, k);
    var ended := FeedNext(req, items, chapters, chunks[k].text, Fed(chunks, k), Joined(parts, k), start);
    how := if ended then ContextEnded else if chunks[k].last then LastSeen else AllRead;
    k' := if ended then k else k + 1;
  }

  /** Why the loop was left after `k` chunks. */
  ghost predicate Left(chunks: seq<ProviderChunk>, how: Drained, k: nat) {
    && k <= |chunks|
    && match how
       case LastSeen => k > 0 && NoLast(chunks, k - 1) && chunks[k - 1].last
       case _ => NoLast(chunks, k)
  }

  lemma LeftNext(chunks: seq<ProviderChunk>, k: nat, how: Drained, k': nat)
    requires k < |chunks| && Left(chunks, AllRead, k)
    requires k' == (if how == ContextEnded then k else k + 1) && (how == LastSeen <==> k' == k + 1 && chunks[k].last)
    ensures Left(chunks, how, k')
  {
  }

  /** The receive loop: chunks into both extractors until the context ends or one is marked last. */
  method DrainChunks(req: Request, items: ArrayParser, chapters: ArrayParser,
                     chunks: seq<ProviderChunk>, ghost parts: seq<seq<Poll>>, ghost start: nat)
      returns (how: Drained, k: nat)
    requires AreParts(req, chunks, parts)
    requires Wired(req, items, chapters) && Streamed(req, items, chapters, [], [], start)
    requires items.onElement.ctx.selects == start
    modifies items, items.buf, chapters, chapters.buf,
             items.onElement.ctx`selects, items.onElement.out,
             items.onElement.result`emitted, items.onElement.result`dropped
    ensures Left(chunks, how, k) && (how == AllRead ==> k == |chunks|)
    ensures Streamed(req, items, chapters, Fed(chunks, k), Joined(parts, k), start)
    ensures if how == ContextEnded then items.onElement.ctx.endsAt - start <= |Joined(parts, k)|
            else items.onElement.ctx.selects == start + |Joined(parts, k)|
  {
    how, k := AllRead, 0;
    while k < |chunks| && how == AllRead
      invariant Left(chunks, how, k)
      invariant Streamed(req, items, chapters, Fed(chunks, k), Joined(parts, k), start)
      invariant if how == ContextEnded then items.onElement.ctx.endsAt - start <= |Joined(parts, k)|
                else items.onElement.ctx.selects == start + |Joined(parts, k)|
      invariant items.buf == old(items.buf) || fresh(items.buf)
      invariant chapters.buf == old(chapters.buf) || fresh(chapters.buf)
      decreases |chunks| - k, how == AllRead
    {
      ghost var before := k;
      how, k := FeedPart(req, items, chapters, chunks, k, parts, start);
      LeftNext(chunks, before, how, k);
    }
  }

  lemma LeftIsConsumed(chunks: seq<ProviderChunk>, closes: bool, how: Drained, k: nat)
    requires Left(chunks, how, k)
    ensures k <= Consumed(chunks)
    ensures how == LastSeen ==> k == Consumed(chunks) && Finishes(chunks, closes)
    ensures how == AllRead && k == |chunks| ==> k == Consumed(chunks) && (closes ==> Finishes(chunks, closes))
  {
    ConsumedUpToLast(chunks, if how == LastSeen then k - 1 else k);
  }

  /** The context's end can cut a run short after `k` chunks: it has come by then, or nothing else ever comes. */
  ghost predicate CutShort(req: Request, chunks: seq<ProviderChunk>, closes: bool, k: nat, live: int)
    requires k <= |chunks|
  {
    NoLast(chunks, k) && (live <= |Polls(req, chunks, k)| || (k == |chunks| && !closes))
  }

  /** A run can end by itself: some chunk is marked last, or the provider closes the stream. */
  predicate Finishes(chunks: seq<ProviderChunk>, closes: bool) {
    closes || !NoLast(chunks, |chunks|)
  }

  /** The select on a stream without further chunks, closed or hanging. */
  method LastSelect(ctx: Context, closes: bool) returns (ended: bool)
    modifies ctx`selects
    ensures ended ==> !closes || ctx.endsAt <= old(ctx.selects)
    ensures !closes ==> ended
  {
    if closes {
      ended := ctx.Select();
    } else {
      ctx.AwaitEnd();
      ended := true;
    }
  }

  /** After the last chunk the loop still selects once more. */
  method FeedUntilEnd(req: Request, items: ArrayParser, chapters: ArrayParser,
                      chunks: seq<ProviderChunk>, closes: bool, ghost start: nat) returns (k: nat, ended: bool)
    requires Wired(req, items, chapters) && Streamed(req, items, chapters, [], [], start)
    requires items.onElement.ctx.selects == start
    modifies items, items.buf, chapters, chapters.buf,
             items.onElement.ctx`selects, items.onElement.out,
             items.onElement.result`emitted, items.onElement.result`dropped
    ensures k <= Consumed(chunks) && items.onElement.out.Valid() && !items.onElement.out.closed
    ensures Relayed(req, Fed(chunks, k), Polls(req, chunks, k), items.onElement.ctx.endsAt - start,
                    items.onElement.out.sent, items.onElement.result.emitted, items.onElement.result.dropped)
    ensures if ended then CutShort(req, chunks, closes, k, items.onElement.ctx.endsAt - start)
            else k == Consumed(chunks) && Finishes(chunks, closes)
  {
    var how;
    AllPollsAreParts(req, chunks);
    how, k := DrainChunks(req, items, chapters, chunks, AllPolls(req, chunks), start);
    LeftIsConsumed(chunks, closes, how, k);
    ended := how == ContextEnded;
    if how == AllRead {
      ended := LastSelect(items.onElement.ctx, closes);
    }
  }

  /** Only the context's end is recorded as an error. */
  method FeedChunks(req: Request, items: ArrayParser, chapters: ArrayParser,
                    chunks: seq<ProviderChunk>, closes: bool, r: StreamResult, ghost start: nat) returns (k: nat)
    requires Wired(req, items, chapters) && Streamed(req, items, chapters, [], [], start)
    requires items.onElement.ctx.selects == start
    requires items.onElement.result == r && r.err == None
    modifies items, items.buf, chapters, chapters.buf, items.onElement.ctx`selects, items.onElement.out, r
    ensures k <= Consumed(chunks) && items.onElement.out.Valid() && !items.onElement.out.closed
    ensures Relayed(req, Fed(chunks, k), Polls(req, chunks, k), items.onElement.ctx.endsAt - start,
                    items.onElement.out.sent, r.emitted, r.dropped)
    ensures r.err == None ==> k == Consumed(chunks) && Finishes(chunks, closes)
    ensures r.err != None ==> r.err == Some(items.onElement.ctx.Err())
                              && CutShort(req, chunks, closes, k, items.onElement.ctx.endsAt - start)
  {
    var ended;
    k, ended := FeedUntilEnd(req, items, chapters, chunks, closes, start);
    if ended {
      r.err := Some(items.onElement.ctx.Err());
    }
  }

  // ----- the run -----

  /**
   A stream of which `k` chunks were read: what was sent and counted by then, and
   why it was left. The context's end comes after `live` selects.
   */
  ghost predicate Streams(req: Request, chunks: seq<ProviderChunk>, closes: bool, k: nat, live: int,
                          body: seq<Sent>, emitted: int, dropped: int, done: bool) {
    && k <= Consumed(chunks)
    && Relayed(req, Fed(chunks, k), Polls(req, chunks, k), live, body, emitted, dropped)
    && (if done then k == Consumed(chunks) && Finishes(chunks, closes) else CutShort(req, chunks, closes, k, live))
  }

  ghost predicate StreamDone(req: Request, chunks: seq<ProviderChunk>, closes: bool, k: nat, live: int, ctx: Context,
                             sent: seq<Sent>, r: StreamResult)
    reads r
  {
    && Streams(req, chunks, closes, k, live, sent, r.emitted, r.dropped, r.err == None)
    && (r.err != None ==> r.err == Some(ctx.Err()))
  }

  method ConsumeStream(req: Request, ctx: Context, chunks: seq<ProviderChunk>, closes: bool, out: Channel)
      returns (r: StreamResult, k: nat)
    requires out.Valid() && !out.closed && out.sent == []
    modifies ctx`selects, out
    ensures fresh(r) && out.Valid() && !out.closed
    ensures StreamDone(req, chunks, closes, k, ctx.endsAt - old(ctx.selects), ctx, out.sent, r)
  {
    r := new StreamResult(None);
    var itemEmitter := new Emitter(ItemRole, ctx, out, r, req.wellFormed);
    var items := new ArrayParser(ITEMS, itemEmitter);
    var chapterEmitter := new Emitter(ChapterRoleOf(req), ctx, out, r, req.wellFormed);
    var chapters := new ArrayParser(CHAPTERS, chapterEmitter);
    PayloadsAreLogged(out.log);
    NothingRelayed(req, ctx.endsAt - ctx.selects);
    k := FeedChunks(req, items, chapters, chunks, closes, r, ctx.selects);
  }

  method StreamOnce(req: Request, ctx: Context, provider: Provider, out: Channel)
      returns (r: StreamResult, k: nat)
    requires out.Valid() && !out.closed && out.sent == []
    modifies ctx`selects, provider`calls, out
    ensures fresh(r) && out.Valid() && !out.closed
    ensures provider.calls == old(provider.calls) + 1
    ensures match provider.replies(old(provider.calls))
            case Refused(err) =>
              && out.sent == [] && r.emitted == r.dropped == 0 && ctx.selects == old(ctx.selects)
              && r.err == Some(StartFailure(err, req.hasImages))
            case Streaming(chunks, closes) =>
              StreamDone(req, chunks, closes, k, ctx.endsAt - old(ctx.selects), ctx, out.sent, r)
  {
    k := 0;
    var reply := provider.Stream();
    match reply
    case Refused(err) =>
      r := new StreamResult(Some(ClassifyProviderStartErr(ClassifyProviderError(err, req.hasImages))));
    case Streaming(chunks, closes) =>
      r, k := ConsumeStream(req, ctx, chunks, closes, out);
  }

  /** The provider is asked again when the first start failed with a transient failure. */
  method StreamWithRetry(req: Request, ctx: Context, provider: Provider, out: Channel)
      returns (r: StreamResult, k: nat)
    requires out.Valid() && !out.closed && out.sent == [] && provider.calls == 0
    modifies ctx`selects, provider`calls, out
    ensures fresh(r) && out.Valid() && !out.closed
    ensures provider.calls == if Retried(req, provider) then 2 else 1
    ensures match LastReply(req, provider)
            case Refused(err) =>
              out.sent == [] && r.emitted == r.dropped == 0 && r.err == Some(StartFailure(err, req.hasImages))
            case Streaming(chunks, closes) =>
              StreamDone(req, chunks, closes, k, ctx.endsAt - old(ctx.selects), ctx, out.sent, r)
  {
    r, k := StreamOnce(req, ctx, provider, out);
    if r.err != None && Retryable(r.err.value) {
      r, k := StreamOnce(req, ctx, provider, out);
    }
  }

  /** The job row, the debit and the terminal chunk that a stream's result leads to. */
  method Finalize(req: Request, r: StreamResult, out: Channel, job: JobRow, quota: QuotaTable)
    requires out.Valid() && !out.closed
    modifies out, job, quota`rows
    ensures out.Valid() && !out.closed
    ensures job.itemsEmitted == r.emitted && job.itemsDropped == r.dropped
    ensures r.err == None ==> out.sent == old(out.sent) + [DoneSent] && job.status == Complete
    ensures r.err != None ==>
              && out.sent == old(out.sent) + [ErrorSent(r.err.value)]
              && job.status == StatusFor(r.err.value) && job.errorKind == PersistedKind(r.err.value)
    ensures quota.rows ==
            if r.err == None && r.emitted > 0
            then AfterDebit(old(quota.rows), req.uid, quota.today, req.feature, 1, 0)
            else old(quota.rows)
  {
    job.itemsEmitted, job.itemsDropped := r.emitted, r.dropped;
    if r.err != None {
      job.status, job.errorKind := StatusFor(r.err.value), PersistedKind(r.err.value);
      out.SendTerminal(ErrorChunk(r.err.value));
      return;
    }
    job.status := Complete;
    if r.emitted > 0 {
      var ok := quota.DebitQuota(req.uid, req.feature, 1, 0);
    }
    out.SendTerminal(DoneChunk);
  }

  /** The reply a run ends on: the second when the first is refused with a transient failure. */
  function LastReply(req: Request, provider: Provider): Reply {
    if Retried(req, provider) then provider.replies(1) else provider.replies(0)
  }

  predicate Retried(req: Request, provider: Provider) {
    provider.replies(0).Refused? && Retryable(StartFailure(provider.replies(0).err, req.hasImages))
  }

  /** The provider is asked twice exactly for a rate limit or a server failure. */
  lemma AskedTwiceExactlyWhen(req: Request, provider: Provider, status: int)
    requires provider.replies(0) == Refused(Reported(HttpStatus(status)))
    ensures Retried(req, provider) <==> status == 429 || !(400 <= status < 500)
  {
    HttpStatusDecides(status, req.hasImages);
  }

  /** Whether a run whose stream ended in the terminal chunk `t` is recorded as cancelled. */
  predicate EndsCancelled(req: Request, reply: Reply, cause: Sentinel, t: Sent) {
    match reply
    case Refused(err) => RecordedAsCancelled(err, req.hasImages)
    case Streaming(_, _) => t.ErrorSent? && cause == Canceled
  }

  /**
   Every run: payloads, then exactly one terminal chunk, then closed. The row
   records as many items as the client was sent; one call is debited exactly
   when the run succeeded with items, on the day it ends; the provider is asked
   at most twice.
   */
  method Drive(req: Request, ctx: Context, provider: Provider, out: Channel, job: JobRow, quota: QuotaTable)
      returns (ghost body: seq<Sent>, ghost terminal: Sent, ghost k: nat)
    requires out.Valid() && !out.closed && out.sent == [] && provider.calls == 0
    modifies ctx`selects, provider`calls, out, job, quota
    ensures out.Valid() && out.closed
    ensures out.sent == body + [terminal] && (terminal.DoneSent? || terminal.ErrorSent?)
    ensures forall i | 0 <= i < |body| :: body[i].ItemSent? || body[i].ChapterSent?
    ensures provider.calls == if Retried(req, provider) then 2 else 1
    ensures job.itemsEmitted == |ItemsOf(body)|
    ensures quota.today >= old(quota.today)
    ensures quota.rows ==
            if terminal.DoneSent? && ItemsOf(body) != []
            then AfterDebit(old(quota.rows), req.uid, quota.today, req.feature, 1, 0)
            else old(quota.rows)
    ensures terminal.DoneSent? <==> job.status == Complete
    ensures job.status == Cancelled <==> EndsCancelled(req, LastReply(req, provider), ctx.cause, terminal)
    ensures terminal.ErrorSent? ==>
              job.status == StatusFor(terminal.err) && job.errorKind == PersistedKind(terminal.err)
    ensures match LastReply(req, provider)
            case Refused(err) => body == [] && terminal == ErrorSent(StartFailure(err, req.hasImages))
            case Streaming(chunks, closes) =>
              && Streams(req, chunks, closes, k, ctx.endsAt - old(ctx.selects), body,
                         job.itemsEmitted, job.itemsDropped, terminal.DoneSent?)
              && (terminal.ErrorSent? ==> terminal == ErrorSent(ctx.Err()))
  {
    var r;
    r, k := StreamWithRetry(req, ctx, provider, out);
    body := out.sent;
    quota.Wait();
    Finalize(req, r, out, job, quota);
    terminal := out.sent[|body|];
    out.Close();
    var reply := LastReply(req, provider);
    if reply.Refused? {
      CancelledAtStartExactlyWhen(reply.err, req.hasImages);
    } else {
      ContextEndIsFinal(ctx.cause);
    }
  }
}
